/** The live host: iptables tables and the wg0 interface, changed one command at a time.
    Every command may fail for reasons outside the program, and every state the host
    passes through is recorded, so a claim about `history` is a claim about each single
    command, and about where a crash can leave the host. */
module Hosts {
  import opened Common
  import opened DesiredStates
  import opened WireGuard
  import opened WgConfig
  import opened Firewall
  import opened FirewallMeaning

  /** `byAgent` records who created the interface; no command can read it. */
  datatype Wg0 = Wg0(byAgent: bool, up: bool, kernel: Kernel)

  datatype HostState = HostState(tables: Tables, wg0: Option<Wg0>)

  predicate AgentOwnsWg0(s: HostState) {
    s.wg0.Some? && s.wg0.value.byAgent
  }

  /** The tunnel is never up without its firewall. */
  predicate Safe(p: HostForwardPlan, s: HostState) {
    AgentOwnsWg0(s) ==> Guarding(p, s.tables)
  }

  /** Every state a host has been in, one per command. */
  datatype History = Origin(state: HostState) | After(earlier: History, state: HostState)

  predicate AllSafe(p: HostForwardPlan, h: History) {
    Safe(p, h.state) && (h.After? ==> AllSafe(p, h.earlier))
  }

  predicate Follows(h: History, later: History) {
    h == later || (later.After? && Follows(h, later.earlier))
  }

  /** Nothing that had happened by `early` is missing from `late`. */
  ghost predicate Grew(early: History, late: History) {
    forall h {:trigger Follows(h, late)} :: Follows(h, early) ==> Follows(h, late)
  }

  /** Everybody else's rules read the same, in content and order, in every state. */
  predicate Undisturbed(foreign: map<ChainRef, seq<Rule>>, h: History) {
    ForeignView(h.state.tables) == foreign && (h.After? ==> Undisturbed(foreign, h.earlier))
  }

  class Host {
    var s: HostState
    /** What `compile_host_forwarding` makes of the network as it is now. */
    const networkPlan: Option<HostForwardPlan>
    /** Somebody listens on UDP 51820. */
    const portTaken: bool
    ghost var history: History
    /** How often something outside the program has gone wrong. */
    ghost var faults: nat
    /** Other people's rules, as they were when the agent arrived. */
    ghost const foreign: map<ChainRef, seq<Rule>>

    /** `facts` and `route` are what iptables-save and the route lookup show. */
    constructor (s: HostState, facts: FirewallFacts, route: BridgeRoute, portTaken: bool)
      requires s.wg0.Some? ==> KernelOk(s.wg0.value.kernel)
      ensures this.s == s && networkPlan == CompileHostForwarding(facts, route) && this.portTaken == portTaken
      ensures history == Origin(s) && Valid()
    {
      this.s := s;
      networkPlan := CompileHostForwarding(facts, route);
      this.portTaken := portTaken;
      history := Origin(s);
      faults := 0;
      foreign := ForeignView(s.tables);
    }

    /** Part of this is a promise about every run: whatever commands succeed, fail or half
        succeed, nobody else's rules are ever changed or reordered. */
    ghost predicate Valid()
      reads this
    {
      && Undisturbed(foreign, history)
      && (s.wg0.Some? ==> KernelOk(s.wg0.value.kernel))
      && history.state == s
    }

    /** A state that other requests of the agent can leave this host in. */
    ghost predicate Reachable(p: HostForwardPlan, next: HostState) {
      Safe(p, next) && ForeignView(next.tables) == foreign && (next.wg0.Some? ==> KernelOk(next.wg0.value.kernel))
    }

    /** While this request was not looking, others have changed the host. */
    method Overtaken(next: HostState, ghost p: HostForwardPlan)
      requires Valid() && AllSafe(p, history) && Reachable(p, next)
      modifies this`s, this`history
      ensures Valid() && AllSafe(p, history) && s == next && history == After(old(history), next)
      ensures Grew(old(history), history)
    {
      s := next;
      history := After(history, s);
    }

    /** One iptables command. */
    method RunFirewall(c: Command) returns (ok: bool)
      requires Valid() && AgentCommand(c)
      modifies this
      ensures Valid() && history == After(old(history), s) && faults >= old(faults)
      ensures Grew(old(history), history)
      ensures s.wg0 == old(s.wg0) && Outcome(old(s.tables), c, ok, s.tables)
      ensures !ok && faults == old(faults) ==> !Possible(old(s.tables), c)
    {
      var fault: bool := *;
      var late: bool := *;
      ok := !fault && Possible(s.tables, c);
      if fault { faults := faults + 1; }
      if ok || (late && (c.AppendRule? || c.FlushChain? || c.DeleteChain?) && Possible(s.tables, c)) {
        s := s.(tables := Effect(s.tables, c));
      }
      AgentCommandKeepsForeignView(old(s.tables), c, ok, s.tables);
      history := After(history, s);
    }

    /** `ip link add dev wg0 type wireguard`. It fails without effect if the name is
        taken, including by somebody who took it after the agent last looked. */
    method LinkAdd() returns (ok: bool)
      requires Valid()
      modifies this
      ensures Valid() && history == After(old(history), s) && faults >= old(faults)
      ensures Grew(old(history), history)
      ensures s.tables == old(s.tables)
      ensures ok ==> old(s.wg0).None? && s.wg0 == Some(Wg0(true, false, EMPTY_KERNEL))
      ensures !ok ==> s.wg0 == old(s.wg0) || (old(s.wg0).None? && !AgentOwnsWg0(s))
      ensures !ok && faults == old(faults) ==> old(s.wg0).Some?
    {
      var fault: bool := *;
      var taken: bool := *;
      ok := !fault && !taken && s.wg0.None?;
      if fault || taken { faults := faults + 1; }
      if ok {
        s := s.(wg0 := Some(Wg0(true, false, EMPTY_KERNEL)));
      } else if taken && s.wg0.None? {
        s := s.(wg0 := Some(Wg0(false, true, EMPTY_KERNEL)));
      }
      history := After(history, s);
    }

    /** `ip address add 10.0.0.1/22 dev wg0`. */
    method AddressAdd() returns (ok: bool)
      requires Valid() && s.wg0.Some?
      modifies this
      ensures Valid() && history == After(old(history), s) && faults >= old(faults)
      ensures Grew(old(history), history)
      ensures s.tables == old(s.tables)
      ensures var w, added := old(s.wg0.value), old(s.wg0.value.kernel.addresses) + [SERVER_ADDRESS];
              && (ok ==> s.wg0 == Some(w.(kernel := w.kernel.(addresses := added))))
              && (!ok ==> s.wg0 == Some(w) || s.wg0 == Some(w.(kernel := w.kernel.(addresses := added))))
      ensures !ok ==> faults > old(faults)
    {
      ok := *;
      if !ok { faults := faults + 1; }
      var late: bool := *;
      if ok || late {
        var k := s.wg0.value.kernel;
        s := s.(wg0 := Some(s.wg0.value.(kernel := k.(addresses := k.addresses + [SERVER_ADDRESS]))));
      }
      history := After(history, s);
    }

    /** `wg setconf` and `wg syncconf`: a failure may leave any mixture behind. */
    method Configure(c: Config) returns (ok: bool)
      requires Valid() && s.wg0.Some?
      modifies this
      ensures Valid() && history == After(old(history), s) && faults >= old(faults)
      ensures Grew(old(history), history)
      ensures s.tables == old(s.tables) && s.wg0.Some?
      ensures s.wg0.value == old(s.wg0.value).(kernel := s.wg0.value.kernel)
      ensures s.wg0.value.kernel.addresses == old(s.wg0.value.kernel.addresses)
      ensures ok ==> s.wg0.value.kernel == Load(old(s.wg0.value.kernel), c)
      ensures !ok ==> faults > old(faults)
    {
      ok := *;
      if !ok { faults := faults + 1; }
      var k := s.wg0.value.kernel;
      if ok {
        LoadedIsOk(k, c);
        s := s.(wg0 := Some(s.wg0.value.(kernel := Load(k, c))));
      } else {
        var partial: Config := *;
        LoadedIsOk(k, partial);
        s := s.(wg0 := Some(s.wg0.value.(kernel := Load(k, partial))));
      }
      history := After(history, s);
    }

    /** `ip link set dev wg0 up`. */
    method LinkUp() returns (ok: bool)
      requires Valid() && s.wg0.Some?
      modifies this
      ensures Valid() && history == After(old(history), s) && faults >= old(faults)
      ensures Grew(old(history), history)
      ensures s.tables == old(s.tables) && s.wg0.Some?
      ensures s.wg0.value == old(s.wg0.value).(up := s.wg0.value.up)
      ensures ok ==> s.wg0.value.up
      ensures !ok ==> faults > old(faults)
    {
      ok := *;
      if !ok { faults := faults + 1; }
      var late: bool := *;
      if ok || late {
        s := s.(wg0 := Some(s.wg0.value.(up := true)));
      }
      history := After(history, s);
    }

    /** `ip link delete dev wg0`. Its precondition is the ownership promise: the agent
        only ever deletes an interface it created. */
    method LinkDelete() returns (ok: bool)
      requires Valid() && (s.wg0.Some? ==> AgentOwnsWg0(s))
      modifies this
      ensures Valid() && history == After(old(history), s) && faults >= old(faults)
      ensures Grew(old(history), history)
      ensures s.tables == old(s.tables)
      ensures ok ==> s.wg0.None?
      ensures !ok ==> s.wg0.None? || s.wg0 == old(s.wg0)
      ensures !ok && faults == old(faults) ==> old(s.wg0).None?
    {
      var fault: bool := *;
      var late: bool := *;
      if fault { faults := faults + 1; }
      ok := !fault && s.wg0.Some?;
      if ok || late {
        s := s.(wg0 := None);
      }
      history := After(history, s);
    }

    /** `wg0_exists`; an error of the probe is None. */
    method Wg0Exists() returns (r: Option<bool>)
      modifies this`faults
      ensures faults >= old(faults)
      ensures r.Some? ==> r.value == s.wg0.Some?
      ensures r.None? ==> faults > old(faults)
    {
      var fault: bool := *;
      if fault { faults := faults + 1; }
      r := if fault then None else Some(s.wg0.Some?);
    }

    /** `ss -lun` does not list the tunnel's port. */
    method PortFree() returns (ok: bool)
      modifies this`faults
      ensures faults >= old(faults)
      ensures ok ==> !portTaken
      ensures !ok && faults == old(faults) ==> portTaken
    {
      var fault: bool := *;
      if fault { faults := faults + 1; }
      ok := !fault && !portTaken;
    }

    /** iptables-save, route lookup and plan compilation, as one observation. */
    method ObservePlan() returns (r: Option<HostForwardPlan>)
      modifies this`faults
      ensures faults >= old(faults)
      ensures r.Some? ==> r == networkPlan
      ensures r != networkPlan ==> faults > old(faults)
    {
      var fault: bool := *;
      if fault { faults := faults + 1; }
      r := if fault then None else networkPlan;
    }

    /** A snapshot of the tables that mentions neither owned chain. */
    method OwnedFirewallAbsent() returns (ok: bool)
      modifies this`faults
      ensures faults >= old(faults)
      ensures ok ==> OwnedAbsent(s.tables)
      ensures !ok && faults == old(faults) ==> !OwnedAbsent(s.tables)
    {
      var fault: bool := *;
      if fault { faults := faults + 1; }
      ok := !fault && OwnedAbsent(s.tables);
    }

    /** `verify_wireguard_state` on the live interface. */
    method VerifyWireguard(st: DesiredState) returns (ok: bool)
      requires Valid() && WellFormed(st)
      modifies this`faults
      ensures faults >= old(faults)
      ensures ok ==> s.wg0.Some? && Matches(s.wg0.value.kernel, st)
      ensures !ok && faults == old(faults) ==> s.wg0.None? || !Matches(s.wg0.value.kernel, st)
    {
      var fault: bool := *;
      if fault {
        faults := faults + 1;
        return false;
      }
      if s.wg0.None? { return false; }
      ok := VerifyWireguardState(s.wg0.value.kernel, st);
    }

    /** `verify_installed`: the structural gate, then one read-only check per rule. */
    method VerifyInstalled(p: HostForwardPlan) returns (ok: bool)
      requires Valid()
      modifies this
      ensures Valid() && s == old(s)
      ensures forall q :: AllSafe(q, old(history)) ==> AllSafe(q, history)
      ensures Grew(old(history), history)
      ensures faults >= old(faults)
      ensures ok ==> OwnedRulesArePlanned(p, s.tables)
      ensures !ok && faults == old(faults) ==> !OwnedRulesArePlanned(p, s.tables)
    {
      InstalledCheckAcceptsIff(p, s.tables);
      if !SnapshotGate(s.tables) { return false; }
      var checks := CheckCommands(p);
      for n := 0 to |checks|
        invariant Valid() && s == old(s) && faults >= old(faults)
        invariant forall q :: AllSafe(q, old(history)) ==> AllSafe(q, history)
        invariant Grew(old(history), history)
        invariant forall i :: 0 <= i < n ==> Possible(s.tables, checks[i])
      {
        var passed := RunFirewall(checks[n]);
        if !passed { return false; }
      }
      return true;
    }
  }
}
