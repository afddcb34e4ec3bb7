/** Where the two halves of the protocol meet: what `apply_state` answers
    (crates/zerovpn-host-agent/src/apply_request.rs) is what a delivered request of
    `reconcile` (crates/zerovpn-api/src/host_agent_controller.rs) can count on. */
module Delivery {
  import opened Common
  import opened DesiredStates
  import opened WireGuard
  import opened Firewall
  import opened Hosts
  import opened Journal
  import opened Apply
  import opened Recovery
  import Reconcile

  /** The journal file that holds the newest state of the log. */
  function FileOf(log: seq<DesiredState>): File {
    if log == [] then Missing else Stored(Committed(log[|log| - 1]))
  }

  /** A host fit to be changed: it is what the journal says it is, and a first cutover
      finds a supported plan, the port free and both chains to hook into. */
  ghost predicate Ready(file: File, plan: Option<HostForwardPlan>, portTaken: bool, s: HostState) {
    && Plausible(file, s) && Stands(Decode(file).value, plan, s)
    && (Decode(file).value.None? ==> plan.Some? && Supported(plan.value) && !portTaken && Hookable(s.tables))
  }

  /** An undisturbed `ApplyState` succeeds without faults exactly under the first condition
      (its contract, with nothing overtaking it); `reconcile` converges on the second. */
  lemma {:induction false} AgentAnswers(w: Reconcile.World, plan: Option<HostForwardPlan>, portTaken: bool,
                                        s: HostState, key: PrivateKey, st: DesiredState)
    requires Reconcile.LogOk(w.log)
    ensures var file := FileOf(w.log);
            && Decode(file).Ok?
            && (Admissible(file, st) && Plausible(file, s) && Servable(st, Decode(file).value, plan, portTaken, s, key)
                <==>
                Reconcile.Accepts(w, st) && Reconcile.CanServe(Reconcile.Site(key, Ready(file, plan, portTaken, s)), st))
  {
    if w.log != [] {
      assert Valid(w.log[|w.log| - 1], 0);
    }
  }
}
