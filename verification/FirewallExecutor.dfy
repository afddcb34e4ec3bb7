/** `install`, `uninstall` and their compensations
    (crates/zerovpn-host-agent/src/firewall_executor.rs), run against the live host. */
module FirewallExecutor {
  import opened Firewall
  import opened FirewallMeaning
  import opened Hosts

  datatype InstallResult =
    | Complete
    | StagingFailed(cleanupErrors: nat)
    | ActivationFailed(detachErrors: nat, cleanupErrors: nat)
  {
    /** Every compensating command that was due ran and succeeded. */
    predicate Compensated() {
      match this
      case Complete => true
      case StagingFailed(c) => c == 0
      case ActivationFailed(d, c) => d == 0 && c == 0
    }
  }

  /** The tables after the first `n` cleanup commands, none of which failed. */
  function Cleaned(u: Tables, fwd: bool, snat: bool, n: nat): Tables {
    var a := if !fwd || n == 0 then u else if n == 1 then u[FWD := []] else u - {FWD};
    if !snat || n < 3 then a else if n == 3 then a[NAT := []] else a - {NAT}
  }

  predicate Due(fwd: bool, snat: bool, n: nat) {
    if n < 2 then fwd else snat
  }

  lemma {:induction false} CleanupStep(p: HostForwardPlan, t: Tables, u: Tables, fwd: bool, snat: bool, n: nat)
    requires OwnedAbsent(t) && PartlyStaged(t, u, fwd, snat) && n < 4
    ensures Due(fwd, snat, n) ==> Possible(Cleaned(u, fwd, snat, n), Commands(p).cleanup[n])
    ensures Due(fwd, snat, n) ==>
              Effect(Cleaned(u, fwd, snat, n), Commands(p).cleanup[n]) == Cleaned(u, fwd, snat, n + 1)
    ensures !Due(fwd, snat, n) ==> Cleaned(u, fwd, snat, n + 1) == Cleaned(u, fwd, snat, n)
  {
    if fwd { CleanupChain(t, u, FWD); }
    if snat { CleanupChain(t, Cleaned(u, fwd, snat, 2), NAT); }
  }

  lemma {:induction false} CleanupDone(t: Tables, u: Tables, fwd: bool, snat: bool)
    requires OwnedAbsent(t) && PartlyStaged(t, u, fwd, snat)
    ensures Cleaned(u, fwd, snat, 4) == t
  {
    assert FWD.chain == HostFwd && NAT.chain == HostNat;
  }

  /** Everything but the agent's filter chain. */
  function Beside(t: Tables): Tables {
    t - {FWD}
  }

  /** A flush or deletion works on its own chain, whatever comes of it. */
  lemma {:induction false} OwnChainOnly(t: Tables, c: Command, ok: bool, t': Tables)
    requires (c.FlushChain? || c.DeleteChain?) && Outcome(t, c, ok, t')
    ensures c.at == FWD ==> Beside(t') == Beside(t)
    ensures c.at == NAT ==> (FWD in t' <==> FWD in t)
  {
    assert FWD != NAT;
  }

  /** Whether the NAT chain can be cleaned does not depend on the filter chain. */
  lemma {:induction false} NatCleanupStandsAlone(t: Tables, u: Tables, c: Command)
    requires Beside(t) == Beside(u) && c.at == NAT && (c.FlushChain? || c.DeleteChain?)
    ensures Possible(t, c) <==> Possible(u, c)
    ensures Possible(t, c) ==> Beside(Effect(t, c)) == Beside(Effect(u, c))
  {
    assert forall k :: k != FWD ==> (k in t <==> k in Beside(t)) && (k in u <==> k in Beside(u));
    assert forall k :: k in Beside(t) ==> t[k] == Beside(t)[k] == u[k];
    assert Referenced(t, NAT) <==> Referenced(u, NAT);
  }

  /** Faults at the start, after the filter chain's two commands, and now. */
  datatype Tally = Tally(start: nat, between: nat, now: nat) {
    function Next(n: nat, faults: nat): Tally {
      Tally(start, if n < 2 then faults else between, faults)
    }
  }

  /** What is known after `n` cleanup commands. */
  ghost predicate Progress(u: Tables, fwd: bool, snat: bool, n: nat, errors: nat, tables: Tables, f: Tally) {
    && (errors == 0 ==> tables == Cleaned(u, fwd, snat, n))
    && f.now >= f.between >= f.start && (f.now == f.start ==> errors == 0)
    && (n <= 2 ==> f.between == f.now && Beside(tables) == Beside(u))
    && (n >= 2 && f.now == f.between ==> Beside(tables) == Beside(Cleaned(u, fwd, snat, n)))
    && (n >= 2 && fwd && f.between == f.start ==> FWD !in tables)
  }

  lemma {:induction false} ProgressStep(p: HostForwardPlan, t: Tables, u: Tables, fwd: bool, snat: bool, n: nat, errors: nat,
                                        tables: Tables, f: Tally, ok: bool, tables': Tables, faults: nat)
    requires OwnedAbsent(t) && PartlyStaged(t, u, fwd, snat) && n < 4 && Due(fwd, snat, n)
    requires Progress(u, fwd, snat, n, errors, tables, f) && faults >= f.now
    requires Outcome(tables, Commands(p).cleanup[n], ok, tables')
    requires !ok && faults == f.now ==> !Possible(tables, Commands(p).cleanup[n])
    ensures Progress(u, fwd, snat, n + 1, if ok then errors else errors + 1, tables', f.Next(n, faults))
  {
    var c := Commands(p).cleanup[n];
    CleanupStep(p, t, u, fwd, snat, n);
    OwnChainOnly(tables, c, ok, tables');
    if n >= 2 && f.now == f.between { NatCleanupStandsAlone(tables, Cleaned(u, fwd, snat, n), c); }
  }

  lemma {:induction false} ProgressSkip(u: Tables, fwd: bool, snat: bool, n: nat, errors: nat, tables: Tables, f: Tally)
    requires n < 4 && !Due(fwd, snat, n) && Progress(u, fwd, snat, n, errors, tables, f)
    ensures Progress(u, fwd, snat, n + 1, errors, tables, f.Next(n, f.now))
  {
  }

  lemma {:induction false} NothingOrOneLeft(u: Tables, fwd: bool, snat: bool, errors: nat, tables: Tables, f: Tally)
    requires Progress(u, fwd, snat, 4, errors, tables, f)
    ensures fwd && snat && f.now <= f.start + 1 ==> FWD !in tables || NAT !in tables
  {
    assert NAT in tables <==> NAT in Beside(tables);
  }

  /** `cleanup_stage`: flush and delete whichever owned chains were created. An error does
      not stop it: if only one thing goes wrong outside, at most one of the two chains is
      left. */
  method CleanupStage(host: Host, p: HostForwardPlan, count: nat, ghost t: Tables) returns (errors: nat)
    requires host.Valid() && AllSafe(p, host.history) && !AgentOwnsWg0(host.s)
    requires OwnedAbsent(t)
    requires PartlyStaged(t, host.s.tables, count > 0, count > 1)
    modifies host
    ensures host.Valid() && AllSafe(p, host.history) && Grew(old(host.history), host.history)
    ensures host.s.wg0 == old(host.s.wg0)
    ensures errors == 0 ==> host.s.tables == t
    ensures host.faults >= old(host.faults) && (host.faults == old(host.faults) ==> errors == 0)
    ensures count > 1 && host.faults <= old(host.faults) + 1 ==> FWD !in host.s.tables || NAT !in host.s.tables
  {
    var cleanup := Commands(p).cleanup;
    ghost var u := host.s.tables;
    var fwd, snat := count > 0, count > 1;
    errors := 0;
    ghost var was := Tally(host.faults, host.faults, host.faults);
    for n := 0 to 4
      invariant host.Valid() && AllSafe(p, host.history) && Grew(old(host.history), host.history)
      invariant host.s.wg0 == old(host.s.wg0)
      invariant was.start == old(host.faults) && was.now == host.faults
      invariant Progress(u, fwd, snat, n, errors, host.s.tables, was)
    {
      CleanupStep(p, t, u, fwd, snat, n);
      ghost var before := host.s.tables;
      if Due(fwd, snat, n) {
        var ok := host.RunFirewall(cleanup[n]);
        ProgressStep(p, t, u, fwd, snat, n, errors, before, was, ok, host.s.tables, host.faults);
        if !ok { errors := errors + 1; }
      } else {
        ProgressSkip(u, fwd, snat, n, errors, before, was);
      }
      was := was.Next(n, host.faults);
    }
    NothingOrOneLeft(u, fwd, snat, errors, host.s.tables, was);
    CleanupDone(t, u, fwd, snat);
  }

  /** `install`. On a host without the agent's chains it either completes, or undoes what
      it did: if every compensating command succeeds, all rule lists are exactly as
      before, whichever command failed. In any case nothing of the agent's is left if and
      only if nothing has changed. When nothing goes wrong outside the program it
      completes exactly on a host that has both chains it hooks into, and where both are
      there, one thing going wrong is always compensated. */
  method Install(host: Host, p: HostForwardPlan) returns (r: InstallResult)
    requires host.Valid() && AllSafe(p, host.history) && !AgentOwnsWg0(host.s)
    requires OwnedAbsent(host.s.tables)
    modifies host
    ensures host.Valid() && AllSafe(p, host.history) && Grew(old(host.history), host.history)
    ensures host.s.wg0 == old(host.s.wg0)
    ensures r.Complete? ==> Hookable(old(host.s.tables)) && host.s.tables == Installed(p, old(host.s.tables))
    ensures !r.Complete? && r.Compensated() ==> host.s.tables == old(host.s.tables)
    ensures host.s.tables == old(host.s.tables) <==> OwnedAbsent(host.s.tables)
    ensures host.faults >= old(host.faults)
    ensures host.faults == old(host.faults) ==> r.Compensated() && (r.Complete? <==> Hookable(old(host.s.tables)))
    ensures !r.Compensated() && (r.StagingFailed? || Hookable(old(host.s.tables))) ==> host.faults >= old(host.faults) + 2
  {
    var commands := Commands(p);
    ghost var t := host.s.tables;
    var staged := 0;
    while staged < |commands.stage|
      invariant staged <= 6
      invariant host.Valid() && AllSafe(p, host.history) && Grew(old(host.history), host.history)
      invariant host.s.wg0 == old(host.s.wg0) && host.s.tables == Staged(p, t, staged)
      invariant host.faults >= old(host.faults)
    {
      StageStep(p, t, staged);
      var ok := host.RunFirewall(commands.stage[staged]);
      if !ok {
        FailedStageIsPartly(p, t, staged, host.s.tables);
        var errors := CleanupStage(host, p, staged, t);
        AbsentIsUntouched(t, host.s.tables);
        return StagingFailed(errors);
      }
      staged := staged + 1;
    }
    r := Attach(host, p, t);
    AbsentIsUntouched(t, host.s.tables);
  }

  /** The activation half of `install`: NAT jump first, filter jump last. */
  method Attach(host: Host, p: HostForwardPlan, ghost t: Tables) returns (r: InstallResult)
    requires host.Valid() && AllSafe(p, host.history) && !AgentOwnsWg0(host.s)
    requires OwnedAbsent(t) && host.s.tables == Staged(p, t, 6)
    modifies host
    ensures host.Valid() && AllSafe(p, host.history) && Grew(old(host.history), host.history)
    ensures host.s.wg0 == old(host.s.wg0)
    ensures r.Complete? ==> Hookable(t) && host.s.tables == Installed(p, t)
    ensures !r.Complete? && r.Compensated() ==> host.s.tables == t
    ensures host.faults >= old(host.faults)
    ensures host.faults == old(host.faults) ==> r.Compensated() && (r.Complete? <==> Hookable(t))
    ensures !r.StagingFailed? && (!r.Compensated() && Hookable(t) ==> host.faults >= old(host.faults) + 2)
  {
    var commands := Commands(p);
    var attached := 0;
    while attached < |commands.activate|
      invariant attached <= 2
      invariant host.Valid() && AllSafe(p, host.history) && Grew(old(host.history), host.history)
      invariant host.s.wg0 == old(host.s.wg0)
      invariant Attached(p, t, host.s.tables, attached)
      invariant host.faults >= old(host.faults)
    {
      AttachOutcomes(p, t, host.s.tables, attached);
      var ok := host.RunFirewall(commands.activate[attached]);
      if !ok {
        r := UndoAttach(host, p, attached, t);
        return;
      }
      attached := attached + 1;
    }
    return Complete;
  }

  /** A failed activation command: detach what was attached, then clean up, unless
      detaching fails, in which case the chains are kept for the operator. */
  method UndoAttach(host: Host, p: HostForwardPlan, attached: nat, ghost t: Tables) returns (r: InstallResult)
    requires host.Valid() && AllSafe(p, host.history) && !AgentOwnsWg0(host.s)
    requires OwnedAbsent(t) && attached < 2 && Attached(p, t, host.s.tables, attached)
    modifies host
    ensures host.Valid() && AllSafe(p, host.history) && Grew(old(host.history), host.history)
    ensures host.s.wg0 == old(host.s.wg0)
    ensures r.ActivationFailed? && (r.Compensated() ==> host.s.tables == t)
    ensures host.faults >= old(host.faults) && (host.faults == old(host.faults) ==> r.Compensated())
  {
    var detachErrors := DetachAttached(host, p, attached, t);
    if detachErrors > 0 { return ActivationFailed(detachErrors, 0); }
    StagedIsPartly(p, t, 6);
    var errors := CleanupStage(host, p, 6, t);
    return ActivationFailed(0, errors);
  }

  /** The tables with the first `n` jumps attached. */
  predicate Attached(p: HostForwardPlan, t: Tables, u: Tables, n: nat) {
    match n
    case 0 => u == Staged(p, t, 6)
    case 1 => POSTROUTING in t && u == Staged(p, t, 6)[POSTROUTING := [NatJump(p)] + t[POSTROUTING]]
    case _ => Hookable(t) && u == Installed(p, t)
  }

  lemma {:induction false} AttachOutcomes(p: HostForwardPlan, t: Tables, u: Tables, n: nat)
    requires OwnedAbsent(t) && n < 2 && Attached(p, t, u, n)
    ensures Possible(u, Commands(p).activate[n]) <==> (if n == 0 then POSTROUTING in t else DOCKER_USER in t)
    ensures Possible(u, Commands(p).activate[n]) ==> Attached(p, t, Effect(u, Commands(p).activate[n]), n + 1)
    ensures n == 1 ==> Possible(u, Commands(p).detach[1]) && Effect(u, Commands(p).detach[1]) == Staged(p, t, 6)
  {
    assert FWD.chain == HostFwd && NAT.chain == HostNat;
    var s := Staged(p, t, 6);
    assert FwdRules(p)[..3] == FwdRules(p);
    if n == 1 {
      assert RemoveFirst(u[POSTROUTING], NatJump(p)) == t[POSTROUTING];
      assert Effect(u, Commands(p).detach[1]) == s;
    }
  }

  /** `detach_attached`: the last `count` detach commands. */
  method DetachAttached(host: Host, p: HostForwardPlan, count: nat, ghost t: Tables) returns (errors: nat)
    requires host.Valid() && AllSafe(p, host.history) && !AgentOwnsWg0(host.s)
    requires OwnedAbsent(t) && count < 2
    requires Attached(p, t, host.s.tables, count)
    modifies host
    ensures host.Valid() && AllSafe(p, host.history) && Grew(old(host.history), host.history)
    ensures host.s.wg0 == old(host.s.wg0)
    ensures errors == 0 ==> host.s.tables == Staged(p, t, 6)
    ensures host.faults >= old(host.faults) && (host.faults == old(host.faults) ==> errors == 0)
  {
    var detach := Commands(p).detach[2 - count..];
    AttachOutcomes(p, t, host.s.tables, count);
    errors := 0;
    for n := 0 to |detach|
      invariant host.Valid() && AllSafe(p, host.history) && Grew(old(host.history), host.history)
      invariant host.s.wg0 == old(host.s.wg0)
      invariant errors == 0 && n == 0 ==> host.s.tables == old(host.s.tables)
      invariant errors == 0 && n == 1 ==> host.s.tables == Staged(p, t, 6)
      invariant host.faults >= old(host.faults) && (host.faults == old(host.faults) ==> errors == 0)
    {
      var ok := host.RunFirewall(detach[n]);
      if !ok { errors := errors + 1; }
    }
  }

  /** `uninstall`: success means the tables are exactly what they were before `install`.
      A failure stops at once, and is never the program's own doing: either both chains
      are still complete, for whoever has to look at them, or nothing jumps to them. */
  method Uninstall(host: Host, p: HostForwardPlan, ghost t: Tables) returns (ok: bool)
    requires host.Valid() && AllSafe(p, host.history) && !AgentOwnsWg0(host.s)
    requires OwnedAbsent(t) && Hookable(t)
    requires host.s.tables == Installed(p, t)
    modifies host
    ensures host.Valid() && AllSafe(p, host.history) && Grew(old(host.history), host.history)
    ensures host.s.wg0 == old(host.s.wg0)
    ensures ok ==> host.s.tables == t
    ensures host.faults >= old(host.faults) && (!ok ==> host.faults > old(host.faults))
    ensures !ok ==> ChainsComplete(p, host.s.tables) || Unhooked(t, host.s.tables)
  {
    ok := DetachBoth(host, p, t);
    if !ok { return; }
    ok := CleanupBoth(host, p, t);
  }

  /** Both of the agent's chains hold everything they should. */
  predicate ChainsComplete(p: HostForwardPlan, t: Tables) {
    FWD in t && t[FWD] == FwdRules(p) && NAT in t && t[NAT] == [SnatRule(p)]
  }

  /** The chains the agent hooks into are as they were in `t`. */
  predicate Unhooked(t: Tables, u: Tables) {
    Hookable(t) && Hookable(u) && u[DOCKER_USER] == t[DOCKER_USER] && u[POSTROUTING] == t[POSTROUTING]
  }

  method DetachBoth(host: Host, p: HostForwardPlan, ghost t: Tables) returns (ok: bool)
    requires host.Valid() && AllSafe(p, host.history) && !AgentOwnsWg0(host.s)
    requires OwnedAbsent(t) && Hookable(t) && host.s.tables == Installed(p, t)
    modifies host
    ensures host.Valid() && AllSafe(p, host.history) && Grew(old(host.history), host.history)
    ensures host.s.wg0 == old(host.s.wg0)
    ensures ok ==> host.s.tables == Staged(p, t, 6)
    ensures host.faults >= old(host.faults) && (!ok ==> host.faults > old(host.faults))
    ensures !ok ==> ChainsComplete(p, host.s.tables)
  {
    ghost var up := host.s.tables;
    var detach := Commands(p).detach;
    DetachStep(p, t);
    for n := 0 to 2
      invariant host.Valid() && AllSafe(p, host.history) && Grew(old(host.history), host.history)
      invariant host.s.wg0 == old(host.s.wg0)
      invariant n == 0 ==> host.s.tables == up
      invariant n == 1 ==> host.s.tables == Effect(up, detach[0])
      invariant n == 2 ==> host.s.tables == Staged(p, t, 6)
      invariant host.faults >= old(host.faults)
    {
      var done := host.RunFirewall(detach[n]);
      if !done { return false; }
    }
    return true;
  }

  method CleanupBoth(host: Host, p: HostForwardPlan, ghost t: Tables) returns (ok: bool)
    requires host.Valid() && AllSafe(p, host.history) && !AgentOwnsWg0(host.s)
    requires OwnedAbsent(t) && Hookable(t) && host.s.tables == Staged(p, t, 6)
    modifies host
    ensures host.Valid() && AllSafe(p, host.history) && Grew(old(host.history), host.history)
    ensures host.s.wg0 == old(host.s.wg0)
    ensures ok ==> host.s.tables == t
    ensures host.faults >= old(host.faults) && (!ok ==> host.faults > old(host.faults))
    ensures Unhooked(t, host.s.tables)
  {
    var cleanup := Commands(p).cleanup;
    ghost var u := host.s.tables;
    StagedIsPartly(p, t, 6);
    for n := 0 to 4
      invariant host.Valid() && AllSafe(p, host.history) && Grew(old(host.history), host.history)
      invariant host.s.wg0 == old(host.s.wg0)
      invariant host.s.tables == Cleaned(u, true, true, n)
      invariant host.faults >= old(host.faults)
    {
      CleanupStep(p, t, u, true, true, n);
      var done := host.RunFirewall(cleanup[n]);
      if !done { return false; }
    }
    CleanupDone(t, u, true, true);
    return true;
  }

  /** Why one thing going wrong is the limit. A run of `install` in which two commands fail:
      the second staging command, and the deletion in the cleanup that is then due. The
      owned chain stays behind. The cutover backend has not set `firewallInstalled`, so
      its rollback is a no-op that succeeds, and the coordinator reports the previous
      host state as restored. */
  lemma {:induction false} FailedCleanupLeavesChain(p: HostForwardPlan, t: Tables)
    requires OwnedAbsent(t)
    ensures var c := Commands(p);
            var u := t[FWD := []];
            && Outcome(t, c.stage[0], true, u)
            && Outcome(u, c.stage[1], false, u)
            && Outcome(u, c.cleanup[0], true, u) && Outcome(u, c.cleanup[1], false, u)
            && !OwnedAbsent(u)
  {
    var u := t[FWD := []];
    assert FWD.chain == HostFwd && FWD !in t;
    assert FWD in u && u[FWD := []] == u;
  }
}
