/** Why the steps of `AgentRuns` are the steps of the code: what the contracts of the
    backends say about a host, in terms of the interface it serves
    (crates/zerovpn-host-agent/src/apply.rs, peer_update.rs, host_cutover.rs). */
module AgentSteps {
  import opened Common
  import opened DesiredStates
  import opened WireGuard
  import opened Firewall
  import opened FirewallMeaning
  import opened Hosts
  import opened Backends
  import opened Apply
  import AgentRuns

  /** The host `s` looks like `live` to the agent. */
  ghost predicate Shows(s: HostState, live: AgentRuns.Live) {
    match live
    case Absent => !AgentOwnsWg0(s)
    case Serving(view) =>
      exists st: DesiredState :: AgentRuns.ViewOf(st) == view && s.wg0.Some? && Matches(s.wg0.value.kernel, st)
    case Mixed => true
  }

  /** The journal read that a backend was built from. */
  function BaseOf(b: Backend): Option<DesiredState> {
    match b case Cutover(_) => None case Update(u) => Some(u.previous.state)
  }

  lemma {:induction false} ViewIsContained(k: Kernel, a: DesiredState, b: DesiredState)
    requires Matches(k, a) && Matches(k, b)
    ensures AgentRuns.ViewOf(a).peers <= AgentRuns.ViewOf(b).peers
  {
    forall p | p in AgentRuns.ViewOf(a).peers ensures p in AgentRuns.ViewOf(b).peers {
      var i :| 0 <= i < |a.peers| && a.peers[i] == p;
      assert Served(k, a.peers[i]);
      var j :| 0 <= j < |k.peers| && Carries(k.peers[j], p);
      assert Wanted(b, k.peers[j]);
      var i' :| 0 <= i' < |b.peers| && b.peers[i'].enabled && Carries(k.peers[j], b.peers[i']);
      assert b.peers[i'] == p;
    }
  }

  /** An interface serves one view: whatever states it matches, they look alike. */
  lemma {:induction false} MatchingViewsAgree(k: Kernel, a: DesiredState, b: DesiredState)
    requires Matches(k, a) && Matches(k, b)
    ensures AgentRuns.ViewOf(a) == AgentRuns.ViewOf(b)
  {
    ViewIsContained(k, a, b);
    ViewIsContained(k, b, a);
  }

  /** `Capture`: a snapshot succeeds only on a host that looks like the base, and where
      host and journal agree that means the base is not stale. With the contract of
      `Apply`, a request whose base is stale leaves the host alone. */
  lemma {:induction false} StaleBaseIsRefused(b: Backend, p: HostForwardPlan, s: HostState, journal: Option<DesiredState>)
    requires b.Captured(s)
    ensures Shows(s, AgentRuns.LiveFor(BaseOf(b)))
    ensures Agree(p, s, journal) ==> AgentRuns.LiveFor(journal) == AgentRuns.LiveFor(BaseOf(b))
  {
    if b.Update? && Agree(p, s, journal) {
      assert ChainIsPlanned(b.update.host.networkPlan.value, s.tables, HostFwd);
      PresentIsNotAbsent(s.tables);
      MatchingViewsAgree(s.wg0.value.kernel, journal.value, b.update.previous.state);
    }
  }

  /** `Verify`: a host that serves the candidate looks like it. */
  lemma {:induction false} ServingShowsCandidate(b: Backend, p: HostForwardPlan, before: HostState, s: HostState, candidate: DesiredState)
    requires b.Serves(p, before, s, candidate)
    ensures Shows(s, AgentRuns.Serving(AgentRuns.ViewOf(candidate)))
  {
  }

  /** `Undo`: a restored host looks like the base again. */
  lemma {:induction false} RestoredShowsBase(b: Backend, residue: bool, before: HostState, s: HostState)
    requires b.Captured(before) && b.Restored(residue, before, s)
    ensures Shows(s, AgentRuns.LiveFor(BaseOf(b)))
  {
    if b.Update? {
      assert Matches(s.wg0.value.kernel, b.update.previous.state);
    }
  }
}
