/** The two backends of the apply transaction: first cutover
    (crates/zerovpn-host-agent/src/host_cutover.rs, host_commands.rs) and update of an
    existing interface (peer_update.rs), with the read-only check both rely on
    (recovery.rs, `verify_restarted_host`). */
module Backends {
  import opened Common
  import opened DesiredStates
  import opened WireGuard
  import opened WgConfig
  import opened Firewall
  import opened FirewallMeaning
  import opened Hosts
  import opened FirewallExecutor

  // ----------------------------------------------------- command operations

  /** `CommandHostOperations`: the ownership bit is set only after `ip link add` succeeded. */
  class CommandHostOperations {
    const host: Host
    var wg0Created: bool

    constructor (host: Host)
      ensures this.host == host && !wg0Created
    {
      this.host := host;
      wg0Created := false;
    }

    /** While the bit is set, whatever is there is the agent's own. While it is clear
        nothing is known: another request of the agent may have raised wg0. */
    ghost predicate Valid()
      reads this, host
    {
      host.Valid() && (wg0Created && host.s.wg0.Some? ==> AgentOwnsWg0(host.s))
    }

    /** Neither wg0, its port nor an owned chain is taken, and the network still compiles
        to `expected`. */
    ghost predicate Unoccupied(expected: HostForwardPlan, s: HostState) {
      s.wg0.None? && !host.portTaken && OwnedAbsent(s.tables) && host.networkPlan == Some(expected)
    }

    method RequireAbsentWg0() returns (ok: bool)
      modifies host`faults
      ensures host.faults >= old(host.faults)
      ensures ok ==> host.s.wg0.None?
      ensures !ok && host.faults == old(host.faults) ==> host.s.wg0.Some?
    {
      var exists_ := host.Wg0Exists();
      ok := exists_ == Some(false);
    }

    /** `require_current_network_plan`: wg0, port and owned firewall free, same plan. */
    method RequireCurrentNetworkPlan(expected: HostForwardPlan) returns (ok: bool)
      modifies host`faults
      ensures host.faults >= old(host.faults)
      ensures ok ==> Unoccupied(expected, host.s)
      ensures !ok && host.faults == old(host.faults) ==> !Unoccupied(expected, host.s)
    {
      var absent := RequireAbsentWg0();
      var free := host.PortFree();
      var clean := host.OwnedFirewallAbsent();
      var actual := host.ObservePlan();
      ok := absent && free && clean && actual == Some(expected);
    }

    /** `activate_wg0`: create, address, configure, bring up. */
    method ActivateWg0(p: HostForwardPlan, config: Config) returns (ok: bool)
      requires Valid() && !wg0Created
      requires AllSafe(p, host.history) && Guarding(p, host.s.tables)
      modifies this, host
      ensures Valid() && AllSafe(p, host.history) && Grew(old(host.history), host.history)
      ensures host.s.tables == old(host.s.tables)
      ensures wg0Created ==> host.s.wg0.Some?
      ensures !wg0Created && old(host.s.wg0).None? ==> !AgentOwnsWg0(host.s)
      ensures ok ==> wg0Created && host.s.wg0.Some?
      ensures ok ==> host.s.wg0.value == Wg0(true, true, Load(EMPTY_KERNEL.(addresses := [SERVER_ADDRESS]), config))
      ensures host.faults >= old(host.faults)
      ensures !ok && host.faults == old(host.faults) ==> old(host.s.wg0).Some?
    {
      ok := host.LinkAdd();
      if !ok { return; }
      wg0Created := true;
      assert AllSafe(p, host.history);
      ok := host.AddressAdd();
      if !ok { return; }
      assert AllSafe(p, host.history);
      assert host.s.wg0.value.kernel.addresses == [SERVER_ADDRESS];
      ok := host.Configure(config);
      if !ok { return; }
      assert AllSafe(p, host.history);
      ok := host.LinkUp();
    }

    method VerifyWg0(st: DesiredState) returns (ok: bool)
      requires Valid() && WellFormed(st)
      modifies host`faults
      ensures host.faults >= old(host.faults)
      ensures ok ==> AgentOwnsWg0(host.s) && Matches(host.s.wg0.value.kernel, st)
      ensures !ok && wg0Created && host.faults == old(host.faults) ==>
                host.s.wg0.None? || !Matches(host.s.wg0.value.kernel, st)
    {
      if !wg0Created { return false; }
      ok := host.VerifyWireguard(st);
    }

    /** `remove_wg0`: deletes only what this agent created. */
    method RemoveWg0(p: HostForwardPlan) returns (ok: bool)
      requires Valid() && AllSafe(p, host.history)
      modifies this, host
      ensures Valid() && AllSafe(p, host.history) && Grew(old(host.history), host.history)
      ensures host.s.tables == old(host.s.tables)
      ensures ok <==> !wg0Created
      ensures ok && old(wg0Created) ==> host.s.wg0.None?
      ensures !old(wg0Created) ==> ok && host.s == old(host.s)
      ensures host.faults >= old(host.faults)
      ensures !ok && host.faults == old(host.faults) ==> old(host.s.wg0).None?
    {
      ok := true;
      if wg0Created {
        ok := host.LinkDelete();
        if !ok { return; }
        wg0Created := false;
      }
    }
  }

  // ---------------------------------------------------------- first cutover

  /** Either something of the agent's is left, or the tables are as they were. */
  ghost predicate LeftAs(residue: bool, before: Tables, now: Tables) {
    if residue then !OwnedAbsent(now) else now == before
  }

  /** `HostCutoverBackend`. `base` is the tables the firewall was installed over, and
      `residue` says that a failed install left something of the agent's behind. */
  class HostCutoverBackend {
    const ops: CommandHostOperations
    const plan: HostForwardPlan
    const key: PrivateKey
    var staged: Option<Config>
    var firewallInstalled: bool
    var wgActivationAttempted: bool
    ghost var base: Tables
    ghost var residue: bool

    constructor (ops: CommandHostOperations, plan: HostForwardPlan, key: PrivateKey)
      requires ops.Valid() && !ops.wg0Created && AllSafe(plan, ops.host.history)
      ensures Valid() && this.ops == ops && this.plan == plan && this.key == key
      ensures !firewallInstalled && !wgActivationAttempted && !residue
    {
      this.ops := ops;
      this.plan := plan;
      this.key := key;
      staged := None;
      firewallInstalled := false;
      wgActivationAttempted := false;
      base := ops.host.s.tables;
      residue := false;
    }

    /** At every command so far the tunnel was up only behind its complete firewall, and
        it still is. */
    ghost predicate Valid()
      reads this, ops, ops.host
    {
      && ops.Valid()
      && AllSafe(plan, ops.host.history)
      && (wgActivationAttempted ==>
            && firewallInstalled
            && OwnedAbsent(base) && Hookable(base)
            && ops.host.s.tables == Installed(plan, base)
            && (!ops.wg0Created ==> !AgentOwnsWg0(ops.host.s)))
      && (!wgActivationAttempted ==> !ops.wg0Created)
    }

    /** When `stage` and `activate` can bring the tunnel up on the host `s`. */
    ghost predicate Raisable(s: HostState, candidate: DesiredState) {
      && key.wellFormed && key.publicKey == candidate.serverKey
      && ops.Unoccupied(plan, s) && Hookable(s.tables)
    }

    method Snapshot() returns (ok: bool)
      requires Valid()
      modifies ops.host`faults
      ensures ops.host.faults >= old(ops.host.faults)
      ensures ok ==> !firewallInstalled && !wgActivationAttempted && ops.Unoccupied(plan, ops.host.s)
      ensures !ok && ops.host.faults == old(ops.host.faults) ==>
                firewallInstalled || wgActivationAttempted || !ops.Unoccupied(plan, ops.host.s)
    {
      if firewallInstalled || wgActivationAttempted { return false; }
      ok := ops.RequireCurrentNetworkPlan(plan);
    }

    method Stage(candidate: DesiredState) returns (ok: bool)
      requires Valid()
      modifies this`staged
      ensures Valid()
      ensures ok <==> candidate.serverKey == key.publicKey && key.wellFormed && candidate.revision > 0 && WellFormed(candidate)
      ensures ok ==> staged == Some(Rendered(candidate, key))
    {
      if candidate.serverKey != key.publicKey { return false; }
      var config := Render(candidate, key);
      if config.None? { return false; }
      staged := config;
      return true;
    }

    /** `activate`: re-check, install the firewall, and only then create the tunnel. */
    method Activate() returns (ok: bool)
      requires Valid() && !firewallInstalled && !wgActivationAttempted
      modifies this, ops, ops.host
      ensures Valid() && staged == old(staged) && Grew(old(ops.host.history), ops.host.history)
      ensures wgActivationAttempted ==> base == old(ops.host.s.tables)
      ensures firewallInstalled == wgActivationAttempted
      ensures wgActivationAttempted || (ops.host.faults == old(ops.host.faults) && !old(residue)) ==> !residue
      ensures residue && !old(residue) && old(Hookable(ops.host.s.tables)) ==> ops.host.faults >= old(ops.host.faults) + 2
      ensures !wgActivationAttempted ==> ops.host.s.wg0 == old(ops.host.s.wg0)
      ensures !wgActivationAttempted && !old(residue) ==> LeftAs(residue, old(ops.host.s.tables), ops.host.s.tables)
      ensures ops.wg0Created ==> ops.host.s.wg0.Some?
      ensures ok ==> wgActivationAttempted && staged.Some? && ops.wg0Created && ops.host.s.wg0.Some?
      ensures ok ==> ops.host.s.wg0.value == Wg0(true, true, Load(EMPTY_KERNEL.(addresses := [SERVER_ADDRESS]), staged.value))
      ensures ops.host.faults >= old(ops.host.faults)
      ensures ok ==> old(ops.Unoccupied(plan, ops.host.s) && Hookable(ops.host.s.tables))
      ensures !ok && ops.host.faults == old(ops.host.faults) ==>
                staged.None? || !old(ops.Unoccupied(plan, ops.host.s) && Hookable(ops.host.s.tables))
    {
      if staged.None? { return false; }
      ok := ops.RequireCurrentNetworkPlan(plan);
      if !ok { return; }
      base := ops.host.s.tables;
      var installed := Install(ops.host, plan);
      residue := !installed.Complete? && !OwnedAbsent(ops.host.s.tables);
      if !installed.Complete? { return false; }
      InstalledGuards(plan, base);
      firewallInstalled := true;
      wgActivationAttempted := true;
      ok := ops.ActivateWg0(plan, staged.value);
    }

    method Verify(candidate: DesiredState) returns (ok: bool)
      requires Valid() && WellFormed(candidate)
      modifies ops.host`faults
      ensures ops.host.faults >= old(ops.host.faults)
      ensures ok ==> wgActivationAttempted && AgentOwnsWg0(ops.host.s) && Matches(ops.host.s.wg0.value.kernel, candidate)
      ensures !ok && wgActivationAttempted && ops.wg0Created && ops.host.faults == old(ops.host.faults) ==>
                ops.host.s.wg0.None? || !Matches(ops.host.s.wg0.value.kernel, candidate)
    {
      if !firewallInstalled || !wgActivationAttempted { return false; }
      ok := ops.VerifyWg0(candidate);
    }

    /** `rollback`: the tunnel goes first; while it cannot be removed the firewall stays. */
    method Rollback() returns (ok: bool)
      requires Valid() && firewallInstalled == wgActivationAttempted
      modifies this, ops, ops.host
      ensures Valid() && residue == old(residue) && Grew(old(ops.host.history), ops.host.history)
      ensures ok ==> !firewallInstalled
      ensures ok && old(wgActivationAttempted) ==> !AgentOwnsWg0(ops.host.s)
      ensures ok && old(wgActivationAttempted) ==> ops.host.s.tables == old(base)
      ensures !old(wgActivationAttempted) ==> ok && ops.host.s == old(ops.host.s)
      ensures !ok && AgentOwnsWg0(ops.host.s) ==> Guarding(plan, ops.host.s.tables)
      ensures ops.host.faults >= old(ops.host.faults)
      ensures !ok && ops.host.faults == old(ops.host.faults) ==> old(ops.wg0Created && ops.host.s.wg0.None?)
    {
      if wgActivationAttempted {
        ok := ops.RemoveWg0(plan);
        if !ok { return; }
        wgActivationAttempted := false;
      }
      if firewallInstalled {
        ok := Uninstall(ops.host, plan, base);
        if !ok { return; }
        firewallInstalled := false;
      }
      staged := None;
      return true;
    }
  }

  lemma {:induction false} InstalledGuards(p: HostForwardPlan, t: Tables)
    requires Hookable(t)
    ensures Guarding(p, Installed(p, t))
  {
  }

  // ---------------------------------------------------- read-only restart check

  /** What `verify_restarted_host` looks for. */
  ghost predicate Restartable(plan: Option<HostForwardPlan>, s: HostState, applied: AppliedState) {
    && applied.digest == DigestOf(applied.state)
    && applied.state.revision > 0 && WellFormed(applied.state)
    && s.wg0.Some? && Matches(s.wg0.value.kernel, applied.state)
    && plan.Some? && Supported(plan.value) && OwnedRulesArePlanned(plan.value, s.tables)
  }

  /** `verify_restarted_host`: success means the journal document is sound, the live
      interface is exactly what it says, and the agent's firewall rules are the planned
      ones. It changes nothing. */
  method VerifyRestartedHost(host: Host, applied: AppliedState) returns (ok: bool)
    requires host.Valid()
    modifies host
    ensures host.Valid() && host.s == old(host.s)
    ensures forall q :: AllSafe(q, old(host.history)) ==> AllSafe(q, host.history)
    ensures Grew(old(host.history), host.history)
    ensures host.faults >= old(host.faults)
    ensures ok ==> Restartable(host.networkPlan, host.s, applied)
    ensures !ok && host.faults == old(host.faults) ==> !Restartable(host.networkPlan, host.s, applied)
  {
    var digest := Validate(applied.state, Predecessor(applied.state.revision));
    if digest.Err? || digest.value != applied.digest { return false; }
    var present := host.Wg0Exists();
    if present != Some(true) { return false; }
    var plan := host.ObservePlan();
    if plan.None? || FromPlan(plan.value).None? { return false; }
    ok := host.VerifyWireguard(applied.state);
    if !ok { return; }
    ok := host.VerifyInstalled(plan.value);
  }

  // ------------------------------------------------------------ peer update

  /** `PeerUpdateBackend`: replaces the peers of an existing interface. */
  class PeerUpdateBackend {
    const host: Host
    const previous: AppliedState
    const key: PrivateKey
    var staged: Option<Config>

    constructor (host: Host, previous: AppliedState, key: PrivateKey)
      ensures this.host == host && this.previous == previous && this.key == key && staged.None?
    {
      this.host := host;
      this.previous := previous;
      this.key := key;
      staged := None;
    }

    /** The candidate continues the base, under the key the agent holds. */
    ghost predicate Succeeds(candidate: DesiredState) {
      && key.wellFormed && key.publicKey == candidate.serverKey
      && candidate.revision > previous.state.revision && candidate.serverKey == previous.state.serverKey
    }

    /** `snapshot`: succeeds only on a host that still serves the base this backend was
        built from. */
    method Snapshot() returns (r: Option<Config>)
      requires host.Valid()
      modifies host
      ensures host.Valid() && host.s == old(host.s)
      ensures forall q :: AllSafe(q, old(host.history)) ==> AllSafe(q, host.history)
      ensures Grew(old(host.history), host.history)
      ensures host.faults >= old(host.faults)
      ensures r.Some? ==> Restartable(host.networkPlan, host.s, previous) && r.value == ShowConf(host.s.wg0.value.kernel)
      ensures r.None? && host.faults == old(host.faults) ==> !Restartable(host.networkPlan, host.s, previous)
    {
      var ok := VerifyRestartedHost(host, previous);
      if !ok { return None; }
      var config := ShowConf(host.s.wg0.value.kernel);
      ok := VerifyRestartedHost(host, previous);
      if !ok { return None; }
      return Some(config);
    }

    method Stage(candidate: DesiredState) returns (ok: bool)
      modifies this`staged
      ensures ok <==> candidate.revision > previous.state.revision && candidate.serverKey == previous.state.serverKey
                      && key.wellFormed && WellFormed(candidate)
      ensures ok ==> staged == Some(Rendered(candidate, key))
    {
      if candidate.revision <= previous.state.revision { return false; }
      if candidate.serverKey != previous.state.serverKey { return false; }
      var config := Render(candidate, key);
      if config.None? { return false; }
      staged := config;
      return true;
    }

    method Activate() returns (ok: bool)
      requires host.Valid() && host.s.wg0.Some?
      modifies host
      ensures host.Valid() && host.s.tables == old(host.s.tables) && host.s.wg0.Some?
      ensures host.s.wg0.value == old(host.s.wg0.value).(kernel := host.s.wg0.value.kernel)
      ensures forall q :: AllSafe(q, old(host.history)) ==> AllSafe(q, host.history)
      ensures Grew(old(host.history), host.history)
      ensures host.s.wg0.value.kernel.addresses == old(host.s.wg0.value.kernel.addresses)
      ensures ok ==> staged.Some? && host.s.wg0.value.kernel == Load(old(host.s.wg0.value.kernel), staged.value)
      ensures host.faults >= old(host.faults) && (!ok ==> staged.None? || host.faults > old(host.faults))
    {
      if staged.None? { return false; }
      ok := host.Configure(staged.value);
    }

    method Verify(candidate: DesiredState) returns (ok: bool)
      requires host.Valid() && WellFormed(candidate)
      modifies host
      ensures host.Valid() && host.s == old(host.s)
      ensures forall q :: AllSafe(q, old(host.history)) ==> AllSafe(q, host.history)
      ensures Grew(old(host.history), host.history)
      ensures host.faults >= old(host.faults)
      ensures ok ==> Restartable(host.networkPlan, host.s, AppliedState(candidate, DigestOf(candidate)))
      ensures !ok && host.faults == old(host.faults) ==> !Restartable(host.networkPlan, host.s, AppliedState(candidate, DigestOf(candidate)))
    {
      ok := host.VerifyWireguard(candidate);
      if !ok { return; }
      ok := VerifyRestartedHost(host, AppliedState(candidate, DigestOf(candidate)));
    }

    /** `rollback`: success means the snapshot was loaded and the interface matches the
        base again. */
    method Rollback(snapshot: Config) returns (ok: bool)
      requires host.Valid() && host.s.wg0.Some?
      modifies host, this`staged
      ensures host.Valid() && host.s.tables == old(host.s.tables) && host.s.wg0.Some?
      ensures host.s.wg0.value == old(host.s.wg0.value).(kernel := host.s.wg0.value.kernel)
      ensures forall q :: AllSafe(q, old(host.history)) ==> AllSafe(q, host.history)
      ensures Grew(old(host.history), host.history)
      ensures ok || host.faults == old(host.faults) ==> host.s.wg0.value.kernel == Load(old(host.s.wg0.value.kernel), snapshot)
      ensures ok ==> Restartable(host.networkPlan, host.s, previous)
      ensures host.faults >= old(host.faults)
      ensures !ok && host.faults == old(host.faults) ==> !Restartable(host.networkPlan, host.s, previous)
    {
      ok := host.Configure(snapshot);
      if !ok { return; }
      ok := VerifyRestartedHost(host, previous);
      if !ok { return; }
      staged := None;
    }
  }
}
