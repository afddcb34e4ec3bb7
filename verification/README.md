# ZeroVPN, verified

A Dafny model of the parts of ZeroVPN that carry state and make promises. Its centre is
the host-agent apply protocol: the API's reconcile loop picks a revision and sends the whole
desired state; the agent locks, loads its journal, validates, snapshots, stages, activates,
verifies, and then commits or rolls back; the backends below drive WireGuard and iptables one
command at a time. Around it are the address allocators, the rate limiter, the live-stats
store, the candle accumulator and the chunked-body decoder.

Nothing here runs the original program.

## How the protocol is modelled

`Host.dfy` is the live machine: iptables rule lists and the wg0 interface. Every command may
fail at any time, and a failed command may or may not have taken effect where that is
possible: a failed `-N`, `-I`, `-D` or `ip link add` had none; a failed `-A`, `-F`, `-X`,
address, link or `wg` command may have had one. The host records every state it passes
through (`history`), so a statement about the history is a statement about every single
command and about every point at which a crash can happen. It also counts the faults that
came from outside (`faults`), so that safety ("whatever fails") and success ("if nothing
fails") are both stated.

`Backends.dfy`, `Journal.dfy`, `Apply.dfy` and `Recovery.dfy` are the agent as imperative code
on that host. `AgentRuns.dfy` is every interleaving of many agent processes that share the
state directory, with crashes and restarts, and `AgentSteps.dfy` shows that its steps are what
the contracts of the code allow. `Reconcile.dfy` is every run of the database row,
the requests in flight and the agent journal, with crashes, lost replies and late deliveries. `Delivery.dfy`
joins the two: what `apply_state` answers is what a delivered request can count on.

Assumptions about the environment: the digest is injective; the journal file survives
crashes; `wg setconf`, `wg syncconf` and the few iptables verbs in use have the semantics
written in `WgConfig.Load` and `Firewall.Effect`; outside programs leave the agent's chains
alone, but may take the name wg0 at any moment before the agent does.

## What turned out false, and exactly when it holds

- A row committed as 'applied' can be wrong or be overtaken. If a reconcile transaction is
  rolled back after its request was sent and the content returns to the old one, the delayed
  request can land between the status read and the confirm (`OrphanLandsBeforeConfirm`) or
  after it (`RolledBackSendDisplacesAppliedRow`). The confirm path is exact, whatever is
  delivered meanwhile, if and only if no such request with the next revision is in flight at
  the status read (`ConfirmIsExactIff`); in runs without such rollbacks it always is
  (`ConfirmIsExactWithoutRollbacks`). An exact row can be displaced if and only if such a
  request is still in flight (`AppliedRowIsThreatenedIff`). The apply path has no such gap
  (`CommitAppliedIsExact`, `CommittedStateIsNeverDisplaced`).
- An all-zero preshared key passes `validate`, but WireGuard reads it back as none, so no
  interface ever verifies and every apply of such a state rolls back
  (`LoadedRenderMatchesIff`, `ZeroPskNeverMatches`, and the success clause of `Apply`).
- Host and journal need not agree after an apply in which more than one thing went wrong. If
  a firewall install fails and a command of its cleanup fails too, a chain can stay behind
  while the cutover backend has not yet noted an installed firewall; its rollback is then a
  no-op that reports the previous state as restored (`FailedCleanupLeavesChain`, two failing
  commands). What does hold, for every pattern of failures: if host and journal agreed before
  and at most one thing goes wrong outside the program, they agree after; for a candidate that
  cannot be brought up and so must be rolled back anyway, if nothing does (`Apply`,
  `ApplyState`). Neither bound can be raised (`ToleranceIsTight`). A lost compensation, a failed rollback or a misread commit each takes a fault
  of its own on top of the one that made it necessary (`Install`, `CommitOrUndo`, `Commit`).
- `verify_installed` compares rules as multisets and ignores where they stand. With DROP
  moved to the front it accepts and permitted traffic is dropped (`OrderIsNotChecked`); with
  an ACCEPT ahead of the jump it accepts and every tunnel packet is let through
  (`PositionIsNotChecked`). An accepted firewall enforces the plan if and only if nothing
  ahead of the jump diverts a tunnel packet and no permitted one starves behind the DROP
  (`AcceptedDecidesIff`); where no rule ahead of the jump is about the tunnel, if and only if
  the DROP is last (`AcceptedDecidesIffDropLast`).
- `prepare_startup` with an empty journal checks that wg0 is absent, but not that the
  agent's chains are: what a failed cleanup left behind opens as a host without applied
  state, and no first cutover can then succeed (`LeftoverChainOpens`). Host and journal agree
  at that opening if and only if no owned chain or jump is left (`PrepareStartup`).
- `V4Allocator::release` frees reserved addresses; they stay protected if and only if no
  release names one (`ReservedProtectedIff`, `ReleasedGatewayIsHandedOut`).
- `V6Allocator::release` says that freed slots are picked up by later scans. They never are
  (`ReleasedSlotsAreLost`); exhaustion is decided by whether the last offset was ever marked
  (`V6ExhaustedIff`). On a /0 prefix `allocate` does not return if and only if the cursor is
  stuck on a marked last address (`V6Allocator.AllocateAddress`, `MarkingLastHangs`,
  `HangIsPermanent`).
- `decode_chunked` promises not to panic, and does if and only if it reaches a size line
  whose size overflows the index (`PanicsIff`; where the addition wraps instead, the slice
  taken next is out of order and panics; `SixteenFPanics` is an input); and a chunk extension
  holding bytes that are not UTF-8, which section 7.1 of RFC 9112 allows in a quoted string,
  ends decoding early
  (`DecodeIsExactIff`, `ObsTextExtensionCutsBody`).
- Live-stats deltas whose seconds go back can give one second two frames
  (`LateDeltaRepeatsASecond`). Every frame is the state at its second's end if and only if the
  seconds never decrease (`FramesCloseSecondsIff`).
- A clock stepped back can flush a minute twice (`ClockStepFlushesTwice`). Drained minutes are
  distinct if and only if no three ticks leave a minute and come back to it
  (`NoMinuteTwiceIff`).

## Model

| member | source | states |
|---|---|---|
| `Reconcile.NextRevision` | crates/zerovpn-api/src/host_agent_controller.rs:170-174 | exceeds both revisions and is the successor of one of them; fails exactly on a negative input or when no i64 is left |
| `Reconcile.RunKeepsInv` | crates/zerovpn-api/src/host_agent_controller.rs:93-150 | the protocol invariant over row, phase, requests in flight and journal survives every run with crashes, lost replies and late deliveries |
| `Reconcile.EveryRun` | crates/zerovpn-api/src/host_agent_controller.rs:93-150 | always applied <= desired; journal revisions strictly increase under one server key; in-flight revisions are at most max(desired, journal)+1; revisions fit i64 |
| `Reconcile.RowChanges` | crates/zerovpn-api/src/host_agent_controller.rs:104-150 | only the three commits touch the row; a failed one records the wish and the failure and leaves what is applied alone; the others record as applied what is desired |
| `Reconcile.RowNeverGoesBack` | crates/zerovpn-api/src/host_agent_controller.rs:104-150 | neither the applied nor the desired revision of the row ever decreases |
| `Reconcile.AppliedWasJournalled` | crates/zerovpn-api/src/host_agent_controller.rs:104-137 | over every run the row says as applied only a revision and digest that the agent's journal has held, or none |
| `Reconcile.CommitAppliedIsExact` | crates/zerovpn-api/src/host_agent_controller.rs:127-137 | a row committed as applied after the agent's reply matches the journal in revision, digest and content, and every request in flight is stale |
| `Reconcile.CommittedStateIsNeverDisplaced` | crates/zerovpn-host-agent/src/apply.rs:36-51 | after that commit, in every further run, no request sent before it changes the journal |
| `Reconcile.ConfirmIsExactIff` | crates/zerovpn-api/src/host_agent_controller.rs:103-113 | whatever is delivered between the status read and the commit, the confirm path commits an exact row, if and only if no request of a rolled-back transaction with the next revision is in flight at the read |
| `Reconcile.ConfirmIsExactWithoutRollbacks` | crates/zerovpn-api/src/host_agent_controller.rs:103-113 | in every run without a transaction rolled back after its send, the confirm path commits only exact rows that no request in flight can displace |
| `Reconcile.OrphanLandsBeforeConfirm` | crates/zerovpn-api/src/host_agent_controller.rs:97-113 | a reachable run, for any two contents, in which the confirm itself commits an inexact row |
| `Reconcile.AppliedRowIsThreatenedIff` | crates/zerovpn-api/src/host_agent_controller.rs:104-137 | an exact applied row can be displaced if and only if a request of a rolled-back transaction with the next revision is still in flight |
| `Reconcile.RolledBackSendDisplacesAppliedRow` | crates/zerovpn-api/src/host_agent_controller.rs:104-127 | a concrete run, for any two contents, after which the row says applied for one while the journal holds the other |
| `Reconcile.FaultFreeReconcileConvergesIff` | crates/zerovpn-api/src/host_agent_controller.rs:93-137 | from any reachable state at rest, one fault-free reconcile ends exact if and only if it already was, or the content is valid without all-zero preshared keys, under the identity the agent holds and the journal names, on a host fit to be changed, with a revision left |
| `Delivery.AgentAnswers` | crates/zerovpn-host-agent/src/apply_request.rs:19-45 | the condition under which an undisturbed fault-free `apply_state` succeeds is the one under which a delivered request of `reconcile` lands: journal checks, held key, and a host that is what the journal says |
| `Reconcile.ReconcileIsIdempotent` | crates/zerovpn-api/src/host_agent_controller.rs:104-113 | once exact, any number of reconciles of unchanged content change nothing |
| `AgentRuns.RunKeepsInv` | crates/zerovpn-host-agent/src/apply.rs:35-101 | mutual exclusion, validity of checks made under the lock and host/journal agreement survive every interleaving, with crashes, misread commits and restarts |
| `AgentRuns.EveryInterleaving` | crates/zerovpn-host-agent/src/state.rs:96-164 | journal revisions strictly increase, the server key never changes, one process is past the lock and no lock outlives its holder, host and journal agree outside a transaction unless something broke since the last restart |
| `AgentRuns.StaleBaseMutatesNothing` | crates/zerovpn-host-agent/src/apply_request.rs:19-45 | in every run, a request whose early journal read has been overtaken by something else can neither capture nor change the host, unless something broke since the last restart |
| `AgentRuns.OnlyOneCutoverTakes` | crates/zerovpn-host-agent/src/apply_request.rs:33-44 | once one first cutover is recorded, no other one changes the host |
| `AgentRuns.VerifiedRecords` | crates/zerovpn-host-agent/src/state.rs:116-132 | the second validation inside `record_applied` never refuses a verified candidate, and host and journal agree after it |
| `AgentSteps.MatchingViewsAgree` | crates/zerovpn-host-agent/src/host_commands.rs:162-202 | all states one interface verifies against show the same identity and enabled peers |
| `AgentSteps.StaleBaseIsRefused` | crates/zerovpn-host-agent/src/peer_update.rs:32-39 | a snapshot succeeds only on a host that looks like the base, and where host and journal agree that means the base is the journal's |
| `AgentSteps.ServingShowsCandidate` | crates/zerovpn-host-agent/src/apply.rs:60-66 | a verified host looks like the candidate |
| `AgentSteps.RestoredShowsBase` | crates/zerovpn-host-agent/src/apply.rs:90-101 | a rolled-back host looks like the base again |
| `Apply.ApplyCoordinator.Apply` | crates/zerovpn-host-agent/src/apply.rs:35-88 | for every failure pattern: the tunnel is guarded at every command of a history that only grows, the journal changes only to the admissible candidate, success means served and journalled, no commit without the started and verified audit lines; agreement is kept if at most one thing goes wrong outside (none if the candidate cannot be brought up); succeeds only if, and without faults exactly if, the candidate is achievable |
| `Apply.ToleranceIsTight` | crates/zerovpn-host-agent/src/apply.rs:60-101 | neither bound on faults can be raised: two failing commands, or one for a candidate that cannot be verified, end in disagreement |
| `Apply.ApplyCoordinator.Admit` | crates/zerovpn-host-agent/src/apply.rs:36-52 | refuses without touching the host; without faults rejected are exactly the stale, foreign-identity and invalid candidates, each with its own audit line |
| `Apply.ApplyCoordinator.Proceed` | crates/zerovpn-host-agent/src/apply.rs:53-88 | the part of the same that follows admission: snapshot, transaction, agreement, success exactly when fit |
| `Apply.ApplyCoordinator.Settle` | crates/zerovpn-host-agent/src/apply.rs:60-88 | the transaction after a snapshot: agreement kept within the same bound on faults, and what is left of it beyond |
| `Apply.ApplyCoordinator.Transact` | crates/zerovpn-host-agent/src/apply.rs:60-88 | after the snapshot: applied means served and landed, rolled back means restored; a failed rollback takes a fault of the host's, and for a fit candidate it and any leftover take two; without faults applied if fit and rolled back otherwise |
| `Apply.ApplyCoordinator.CommitOrUndo` | crates/zerovpn-host-agent/src/apply.rs:70-88 | a commit that failed is rolled back unless it may have landed; a failed rollback takes a fault of the host's on top of the store's, a misread commit two of the store's |
| `Apply.ApplyCoordinator.Commit` | crates/zerovpn-host-agent/src/apply.rs:71-87 | tells recorded, uncertain and not recorded apart; not recorded takes a fault, and not recorded while landed takes a second one in the read-back |
| `Apply.ApplyCoordinator.RollbackFailure` | crates/zerovpn-host-agent/src/apply.rs:90-101 | reports rolled back only when the host is restored, and otherwise only if something went wrong on the host |
| `Apply.ServingAgrees` | crates/zerovpn-host-agent/src/apply.rs:60-66 | a host brought up by either backend agrees with the candidate once it is journalled |
| `Apply.RestoredAgrees` | crates/zerovpn-host-agent/src/apply.rs:90-101 | a restored host agrees with the old journal again |
| `Apply.BringCutover` | crates/zerovpn-host-agent/src/host_cutover.rs:64-87 | stage, activate and verify: success means an agent-owned tunnel matching the candidate behind its firewall; without faults exactly when that is possible |
| `Apply.BringUpdate` | crates/zerovpn-host-agent/src/peer_update.rs:40-57 | changes only what `wg syncconf` sets; success means the interface matches the candidate; without faults exactly when that is possible |
| `Recovery.RestoreFromJournal` | crates/zerovpn-host-agent/src/recovery.rs:43-67 | on any host: success means the journalled state is served behind its firewall; an existing wg0 is left alone; the journal is never written; succeeds whenever restorable and nothing fails; a failure within the bound on faults is rolled back, or served with only the last audit line missing |
| `Recovery.RestoreLocked` | crates/zerovpn-host-agent/src/recovery.rs:47-62 | brought up, or rolled back to the same tables and no tunnel of its own if at most one thing goes wrong (none if it cannot be brought up); without faults brought up exactly when raisable |
| `Recovery.PrepareStartup` | crates/zerovpn-host-agent/src/startup.rs:18-41 | from any host and journal: opens only with neither journal nor wg0, or with the interface equal to the journal; returns the due status unless something outside fails; says exactly when the openings agree with the journal and enforce the plan |
| `Recovery.LeftoverChainOpens` | crates/zerovpn-host-agent/src/startup.rs:21-25 | a left-over chain with an empty journal opens as no applied state, disagrees with the journal and blocks every first cutover |
| `Recovery.RestartedIsEnforcedIff` | crates/zerovpn-host-agent/src/startup.rs:28-31 | a host that passes the restart check enforces the plan if and only if no tunnel packet is diverted or starved |
| `Recovery.ApplyState` | crates/zerovpn-host-agent/src/apply_request.rs:19-45 | whatever other requests do to host and journal between the early read and the lock, the host is changed only if it still is what that read said; agreement under the lock is kept within the bound on faults; without faults succeeds exactly if admissible and servable at lock time |
| `Recovery.Choose` | crates/zerovpn-host-agent/src/apply_request.rs:20-42 | the choice made before the lock follows the journal read and the wg0 probe; without faults refused exactly when they contradict each other, the key is another's or no supported plan compiles |
| `Recovery.Dispatch` | crates/zerovpn-host-agent/src/apply_request.rs:24-44 | the chosen backend on any host and journal found under the lock, with the same promises |
| `Recovery.RunUpdate` | crates/zerovpn-host-agent/src/apply_request.rs:24-32 | the update arm on any host found under the lock |
| `Recovery.RunCutover` | crates/zerovpn-host-agent/src/apply_request.rs:33-44 | the cutover arm on any host found under the lock, including one where another request has raised wg0: then nothing is changed |
| `Journal.StateStore.Load` | crates/zerovpn-host-agent/src/state.rs:96-112 | returns what the file decodes to, or an error if reading failed |
| `Journal.DecodeIff` | crates/zerovpn-host-agent/src/state.rs:96-112 | a journal is empty exactly without a file, and holds exactly an untampered document of a valid state |
| `Journal.StateStore.RecordApplied` | crates/zerovpn-host-agent/src/state.rs:116-132 | whatever lands is newer than what was there and is read back unchanged; it may land although an error is returned |
| `Journal.StateStore.Audit` | crates/zerovpn-host-agent/src/state.rs:134-149 | appends exactly the line, or fails |
| `Backends.CommandHostOperations.RequireCurrentNetworkPlan` | crates/zerovpn-host-agent/src/host_preflight.rs:41-54 | accepts only with wg0, its UDP port and the owned chains free and the same plan; without faults exactly then |
| `Backends.CommandHostOperations.ActivateWg0` | crates/zerovpn-host-agent/src/host_commands.rs:137-145 | the ownership bit is set only for an interface it created; at every command the tunnel is guarded; success means up with exactly the configuration |
| `Backends.CommandHostOperations.VerifyWg0` | crates/zerovpn-host-agent/src/host_commands.rs:146-150 | accepts only an owned interface that matches the state |
| `Backends.CommandHostOperations.RemoveWg0` | crates/zerovpn-host-agent/src/host_commands.rs:151-157 | deletes only what it created, leaves the firewall alone |
| `Backends.HostCutoverBackend.Snapshot` | crates/zerovpn-host-agent/src/host_cutover.rs:55-63 | accepts only a fresh backend on an unoccupied host; without faults exactly then |
| `Backends.HostCutoverBackend.Stage` | crates/zerovpn-host-agent/src/host_cutover.rs:64-70 | accepts exactly valid candidates under its own key and stages their rendering |
| `Backends.HostCutoverBackend.Activate` | crates/zerovpn-host-agent/src/host_cutover.rs:71-82 | firewall complete before the tunnel exists, at every command; a failure before that leaves interface and tables as before, or something of the agent's in the tables, and the latter takes two faults on a host with both hooks |
| `Backends.HostCutoverBackend.Verify` | crates/zerovpn-host-agent/src/host_cutover.rs:83-88 | accepts only the agent's own tunnel matching the candidate |
| `Backends.HostCutoverBackend.Rollback` | crates/zerovpn-host-agent/src/host_cutover.rs:89-101 | success restores the tables and removes the tunnel; while the tunnel cannot be removed the firewall stays |
| `Backends.VerifyRestartedHost` | crates/zerovpn-host-agent/src/recovery.rs:23-37 | changes nothing; accepts only, and without faults exactly, a host that serves the sound journal entry behind the planned rules |
| `Backends.PeerUpdateBackend.Snapshot` | crates/zerovpn-host-agent/src/peer_update.rs:32-39 | accepts only a host that still serves the base, and remembers its configuration |
| `Backends.PeerUpdateBackend.Stage` | crates/zerovpn-host-agent/src/peer_update.rs:40-47 | accepts exactly valid newer candidates with the same identity |
| `Backends.PeerUpdateBackend.Activate` | crates/zerovpn-host-agent/src/peer_update.rs:48-52 | loads exactly the staged configuration, touching nothing else |
| `Backends.PeerUpdateBackend.Verify` | crates/zerovpn-host-agent/src/peer_update.rs:53-58 | accepts only, and without faults exactly, a host that serves the candidate behind the planned rules |
| `Backends.PeerUpdateBackend.Rollback` | crates/zerovpn-host-agent/src/peer_update.rs:59-64 | success means the snapshot was loaded and the host serves the base again |
| `Hosts.Host.RunFirewall` | crates/zerovpn-host-agent/src/host_commands.rs:114-119 | one command: applied, or failed with the stated effect; everybody else's rules keep content and order in every state of every run |
| `Hosts.Host.LinkAdd` | crates/zerovpn-host-agent/src/host_commands.rs:138-139 | creates an absent wg0, or fails without effect of its own |
| `Hosts.Host.LinkDelete` | crates/zerovpn-host-agent/src/host_commands.rs:151-155 | may only be called on the agent's own interface |
| `Hosts.Host.VerifyWireguard` | crates/zerovpn-host-agent/src/host_commands.rs:146-149 | accepts only a live interface that matches; without faults exactly then |
| `Hosts.Host.VerifyInstalled` | crates/zerovpn-host-agent/src/firewall_executor.rs:117-139 | read-only; accepts only, and without faults exactly, if the owned rules are the planned ones |
| `FirewallExecutor.Install` | crates/zerovpn-host-agent/src/firewall_executor.rs:78-100 | completes to the planned tables, or, if every compensating command succeeds, leaves all rule lists as before; on a host with both hooks, and for any staging failure, an uncompensated failure takes two faults; nothing has changed if and only if nothing owned is left; without faults completes exactly on a host with both hooks |
| `FirewallExecutor.Attach` | crates/zerovpn-host-agent/src/firewall_executor.rs:86-99 | the activation half of the same |
| `FirewallExecutor.UndoAttach` | crates/zerovpn-host-agent/src/firewall_executor.rs:89-97 | a compensated failed activation leaves the original tables; failing to compensate takes a fault |
| `FirewallExecutor.DetachAttached` | crates/zerovpn-host-agent/src/firewall_executor.rs:141-143 | without errors exactly the attached jumps are gone |
| `FirewallExecutor.CleanupStage` | crates/zerovpn-host-agent/src/firewall_executor.rs:145-152 | without errors the created chains are gone and nothing else changed; an error does not stop it, so one fault leaves at most one of the two chains |
| `FirewallExecutor.Uninstall` | crates/zerovpn-host-agent/src/firewall_executor.rs:104-112 | success restores the tables from before the install; failure only through an outside fault, and then both chains are still complete or nothing jumps to them |
| `FirewallExecutor.FailedCleanupLeavesChain` | crates/zerovpn-host-agent/src/firewall_executor.rs:78-85 | two failing commands that leave an owned chain behind |
| `Firewall.CompiledPlanIsSupported` | crates/zerovpn-host-agent/src/policy.rs:73-92 | every compiled plan is one `from_plan` accepts |
| `FirewallMeaning.CompilesIff` | crates/zerovpn-host-agent/src/policy.rs:73-92 | the network compiles exactly if Docker forwards and publishes as expected and the route to the target leaves through Docker's bridge, with a usable name, from a usable address |
| `FirewallMeaning.CompiledPlanMeans` | crates/zerovpn-host-agent/src/policy.rs:85-91 | once the compiled plan is installed, a tunnel packet passes exactly if it is peer-to-peer or HTTPS to the published target over its bridge, and exactly that HTTPS traffic leaves with the route's source address |
| `FirewallMeaning.FromPlanIff` | crates/zerovpn-host-agent/src/firewall_executor.rs:34-39 | exactly which plans become commands |
| `Firewall.StageStep` | crates/zerovpn-host-agent/src/firewall_executor.rs:44-57 | each stage command is possible where it runs and builds the next prefix of the planned chains |
| `Firewall.InstallThenUninstallIsIdentity` | crates/zerovpn-host-agent/src/firewall_executor.rs:34-112 | on any tables without owned chains the install commands reach the planned tables and the uninstall commands lead back exactly |
| `FirewallMeaning.AgentCommandKeepsForeignView` | crates/zerovpn-host-agent/src/firewall_executor.rs:24-75 | no agent command, succeeding or failing, changes content or order of anybody else's rules |
| `FirewallMeaning.AbsentIsUntouched` | crates/zerovpn-host-agent/src/firewall_executor.rs:141-152 | after any agent commands, nothing owned is left if and only if the tables are exactly as before |
| `FirewallMeaning.TunnelPacketsAreDecided` | crates/zerovpn-host-agent/src/firewall_executor.rs:44-67 | after install a packet from wg0 is accepted if and only if it is peer-to-peer or TCP 443 to the target, otherwise dropped, whatever rules follow |
| `FirewallMeaning.TunnelPacketsAtForward` | crates/zerovpn-host-agent/src/policy.rs:49-57 | the same for a packet entering FORWARD where DOCKER-USER is consulted first |
| `FirewallMeaning.OtherPacketsKeepVerdict` | crates/zerovpn-host-agent/src/firewall_executor.rs:58-67 | every packet from another interface gets the verdict it got before |
| `FirewallMeaning.OnlyHttpsIsTranslated` | crates/zerovpn-host-agent/src/firewall_executor.rs:45-57 | after install exactly the VPN's TCP 443 traffic to the target leaves with the plan's source address; every other packet is translated as before |
| `FirewallMeaning.InstalledCheckAcceptsIff` | crates/zerovpn-host-agent/src/firewall_executor.rs:117-139 | `verify_installed` accepts if and only if the owned rules are the planned ones as multisets, each jump once |
| `FirewallMeaning.InstalledIsAccepted` | crates/zerovpn-host-agent/src/firewall_executor.rs:117-139 | it accepts after a clean install |
| `FirewallMeaning.OrderIsNotChecked` | crates/zerovpn-host-agent/src/firewall_executor.rs:117-139 | it also accepts with DROP first, where permitted packets are dropped |
| `FirewallMeaning.PositionIsNotChecked` | crates/zerovpn-host-agent/src/firewall_executor.rs:117-139 | it also accepts behind an ACCEPT for everything, where every tunnel packet is let through |
| `FirewallMeaning.AcceptedDecidesIff` | crates/zerovpn-host-agent/src/firewall_executor.rs:117-139 | on accepted tables every tunnel packet at DOCKER-USER is decided as planned if and only if nothing ahead of the jump diverts it and no permitted one starves behind the DROP |
| `FirewallMeaning.NoneStarvesIff` | crates/zerovpn-host-agent/src/firewall_executor.rs:49-51 | no permitted packet starves if and only if the DROP is the last of the three rules |
| `FirewallMeaning.AcceptedDecidesIffDropLast` | crates/zerovpn-host-agent/src/firewall_executor.rs:117-139 | where the rules ahead of the jump name other interfaces, accepted tables enforce the plan if and only if the DROP is last |
| `DesiredStates.Validate` | crates/zerovpn-host-agent/src/state.rs:52-76 | accepts exactly the declaratively valid states; a reported peer fault is one some peer has |
| `DesiredStates.CheckPeer` | crates/zerovpn-host-agent/src/state.rs:60-74 | one loop turn accepts exactly an admissible peer |
| `Base64.ValidKeyIsBase64` | crates/zerovpn-host-agent/src/state.rs:78-82 | a key is accepted if and only if it is the standard base64 text of some 32 bytes |
| `Base64.ZeroKeyIsZeros` | crates/zerovpn-host-agent/src/host_commands.rs:195-200 | the key that is read back as none is the text of 32 zero bytes |
| `DesiredStates.UsableAddressesBoundPeers` | crates/zerovpn-host-agent/src/state.rs:55-73 | a valid state has at most 1021 peers, so the limit of 4096 never decides |
| `WireGuard.ParsePeerValues` | crates/zerovpn-host-agent/src/host_commands.rs:204-214 | succeeds exactly on well-shaped lines with distinct keys and tabulates them |
| `WireGuard.ReadColumn` | crates/zerovpn-host-agent/src/host_commands.rs:172-178 | reads back one printed column of the kernel table |
| `WireGuard.CollectExpected` | crates/zerovpn-host-agent/src/host_commands.rs:179-183 | the expected table is exactly the enabled peers' |
| `WireGuard.FirstDisagreement` | crates/zerovpn-host-agent/src/host_commands.rs:188-201 | finds the first enabled peer whose keepalive or preshared key disagrees, if there is one |
| `WireGuard.VerifyWireguardState` | crates/zerovpn-host-agent/src/host_commands.rs:162-202 | accepts a kernel table printed as `wg show` prints it if and only if identity, port, address and peers are exactly the desired ones |
| `WgConfig.Render` | crates/zerovpn-host-agent/src/wireguard_config.rs:59-79 | succeeds exactly for a valid state and key, with one section per enabled peer in key order |
| `WgConfig.RenderIsCanonical` | crates/zerovpn-host-agent/src/wireguard_config.rs:63-64 | the rendering depends only on which enabled peers there are |
| `WgConfig.KeyLessIff` | crates/zerovpn-host-agent/src/wireguard_config.rs:64-64 | the order of the peers is the alphabetical order of their keys |
| `WgConfig.SortSorts` | crates/zerovpn-host-agent/src/wireguard_config.rs:63-64 | peers with distinct keys come out strictly sorted |
| `WgConfig.LoadDisjoint` | crates/zerovpn-host-agent/src/wireguard_config.rs:69-77 | loading sections with distinct keys and ranges yields exactly those peers |
| `WgConfig.LoadedRenderMatchesIff` | crates/zerovpn-host-agent/src/host_commands.rs:137-149 | what `activate` loads is what `verify` accepts, if and only if no enabled peer has the all-zero preshared key |
| `WgConfig.ZeroPskNeverMatches` | crates/zerovpn-host-agent/src/host_commands.rs:195-200 | no interface verifies against a state with an all-zero preshared key |
| `WgConfig.ShowConfRestores` | crates/zerovpn-host-agent/src/peer_update.rs:32-64 | re-loading `wg showconf` restores the interface whatever was loaded in between |
| `WgConfig.MatchingIsDisjoint` | crates/zerovpn-host-agent/src/peer_update.rs:32-38 | an interface that verified against a valid base is one that round trip applies to |
| `Text.ParseU16Decimal` | crates/zerovpn-host-agent/src/host_commands.rs:191-191 | parsing a printed keepalive returns it, and no printed number reads as "off" |
| `RateLimit.RateLimiter.Check` | crates/zerovpn-api/src/ratelimit.rs:39-56 | the stored hits stay those of all calls so far, and while time does not go back a hit is accepted if and only if its key has fewer than `max` accepted hits in the window over that whole history |
| `RateLimit.MailLimits.Check` | crates/zerovpn-api/src/ratelimit.rs:84-91 | accepts if and only if both limiters do, and charges the email even when the address refuses |
| `RateLimit.StoredIsReference` | crates/zerovpn-api/src/ratelimit.rs:41-54 | what is stored for a key counts exactly its accepted hits in the window |
| `RateLimit.DecisionIsExact` | crates/zerovpn-api/src/ratelimit.rs:39-56 | over every run a hit is refused if and only if its key already has `max` accepted hits in the window |
| `RateLimit.SweepIsInvisible` | crates/zerovpn-api/src/ratelimit.rs:42-48 | the sweep never changes a decision, at any threshold |
| `RateLimit.NeverMoreThanMax` | crates/zerovpn-api/src/ratelimit.rs:39-56 | no window at any instant holds more than `max` accepted hits of a key |
| `IpAlloc.IndexInverse` | crates/zerovpn-wg/src/ip_alloc.rs:179-192 | index and address maps are inverse |
| `IpAlloc.V4Allocator.AllocateAddress` | crates/zerovpn-wg/src/ip_alloc.rs:145-157 | returns the lowest free host; fails if and only if none is free |
| `IpAlloc.V4Allocator.MarkAllocated` | crates/zerovpn-wg/src/ip_alloc.rs:139-143 | marks exactly that address, if it is in the network |
| `IpAlloc.V4Allocator.ReleaseAddress` | crates/zerovpn-wg/src/ip_alloc.rs:159-163 | frees exactly that address, reserved or not |
| `IpAlloc.V4Allocator.Reserve` | crates/zerovpn-wg/src/ip_alloc.rs:165-177 | grants exactly unreserved unmarked addresses |
| `IpAlloc.GrantsAreFresh` | crates/zerovpn-wg/src/ip_alloc.rs:123-192 | over every run releasing only leases, nothing marked or reserved is granted |
| `IpAlloc.ReservedProtectedIff` | crates/zerovpn-wg/src/ip_alloc.rs:159-163 | reserved addresses stay marked throughout if and only if no release names one |
| `IpAlloc.ReleasedGatewayIsHandedOut` | crates/zerovpn-wg/src/ip_alloc.rs:145-163 | releasing the gateway makes the next allocation return it |
| `IpAlloc.LeasableIsUsable` | crates/zerovpn-host-agent/src/state.rs:66-71 | on 10.0.0.0/22 the leasable addresses are exactly those `validate` accepts |
| `IpAlloc.V6Allocator.AllocateAddress` | crates/zerovpn-wg/src/ip_alloc.rs:230-247 | a grant is an unmarked address of the network and is marked by it; otherwise nothing changes; never returns if and only if the network is /0 and the cursor sits on the marked last address |
| `IpAlloc.V6Allocator.MarkAllocated` | crates/zerovpn-wg/src/ip_alloc.rs:217-228 | accepts exactly addresses of the network, adds exactly that offset to the marks and moves the cursor past it if it was behind |
| `IpAlloc.V6Allocator.ReleaseAddress` | crates/zerovpn-wg/src/ip_alloc.rs:249-262 | unmarks an unreserved offset, never moves the cursor |
| `IpAlloc.V6Allocator.Reserve` | crates/zerovpn-wg/src/ip_alloc.rs:264-279 | grants exactly unreserved unmarked addresses, adds exactly that offset to the marks, and says which of the three reasons refused |
| `IpAlloc.Scan` | crates/zerovpn-wg/src/ip_alloc.rs:232-246 | ends with the lowest free offset from any cursor, with none left, or spins exactly when unbounded and everything up to the last offset is marked |
| `IpAlloc.MarkedStayBelowCursor` | crates/zerovpn-wg/src/ip_alloc.rs:194-294 | over every run everything ever marked is below the cursor |
| `IpAlloc.V6NeverReuses` | crates/zerovpn-wg/src/ip_alloc.rs:194-294 | no address ever marked is handed out again, nor offset 0 or 1, nor one outside the network |
| `IpAlloc.MarksAreLeases` | crates/zerovpn-wg/src/ip_alloc.rs:194-294 | over every run the marks are the reserved offsets and exactly the leases a caller can tell from calls and answers |
| `IpAlloc.V6GrantsAreFresh` | crates/zerovpn-wg/src/ip_alloc.rs:230-279 | over every run no held address is granted by `allocate` or `try_reserve`, and `try_reserve` grants every unreserved address that is not held |
| `IpAlloc.V6ExhaustedIff` | crates/zerovpn-wg/src/ip_alloc.rs:230-262 | exhaustion if and only if the last offset was ever marked |
| `IpAlloc.ReleasedSlotsAreLost` | crates/zerovpn-wg/src/ip_alloc.rs:249-262 | exhausted with every lease returned |
| `IpAlloc.HangIsPermanent` | crates/zerovpn-wg/src/ip_alloc.rs:232-246 | the only stuck state of the scan is the marked last address, and the loop does not leave it |
| `IpAlloc.MarkingLastHangs` | crates/zerovpn-wg/src/ip_alloc.rs:217-228 | it is reached on /0 by marking the last address |
| `LiveStats.PushIsLast` | web/src/stores/liveStats.ts:253-262 | pushing onto the last 1800 gives the last 1800 of the longer history |
| `LiveStats.ReplaceIsLast` | web/src/stores/liveStats.ts:210-216 | the same for replacing the newest entry |
| `LiveStats.AddAligned` | web/src/stores/liveStats.ts:232-236 | adds a history right-aligned, in place |
| `LiveStats.BuildAggregate` | web/src/stores/liveStats.ts:222-251 | computes the aggregate that `AggregateCoalesces` characterises |
| `LiveStats.AggregateCoalesces` | web/src/stores/liveStats.ts:222-251 | as long as the longest device history that fits, every entry the sum of the devices' entries the same distance back, rates summed, second of the latest timestamp |
| `LiveStats.HydratedIsSeeded` | web/src/stores/liveStats.ts:366-403 | a hydrated device's histories are the live rate if it is newer and then the points backwards, as many as fit; peaks are maxima over them; the rest is kept |
| `LiveStats.DeviceTracksItsDeltas` | web/src/stores/liveStats.ts:287-312 | over every run of deltas a device's history is the last 1800 rates of its own deltas, with their maxima, sums and last-seen time |
| `LiveStats.LiveStatsStore.ApplyDelta` | web/src/stores/liveStats.ts:282-344 | the new store is the specification's, all invariants kept, no other device touched |
| `LiveStats.LiveStatsStore.HydrateDevice` | web/src/stores/liveStats.ts:366-412 | the device is seeded from the points, no other device is touched, and the aggregate coalesces all histories |
| `LiveStats.EveryRun` | web/src/stores/liveStats.ts:282-412 | after any run of deltas and hydrations: equal histories of at most 1800, aggregate rate the sum of device rates, peaks bound all entries |
| `LiveStats.HistoryIsFrames` | web/src/stores/liveStats.ts:282-344 | from an empty store the aggregate history is the last 1800 of one frame per run of equal seconds, each the sum of last-known rates at its end |
| `LiveStats.OrderedFramesAreSeconds` | web/src/stores/liveStats.ts:282-344 | with non-decreasing timestamps those frames are exactly one per distinct second |
| `LiveStats.FramesCloseSecondsIff` | web/src/stores/liveStats.ts:325-331 | every frame is the state at its second's end if and only if the seconds of the deltas never decrease |
| `LiveStats.LateDeltaRepeatsASecond` | web/src/stores/liveStats.ts:325-331 | seconds 5, 6, 5, 6 give second 5 two frames: three frames for two seconds |
| `Candles.DrainBars` | crates/zerovpn-worker/src/wg_poller.rs:135-151 | one row per bar with traffic, carrying that bar and bucket |
| `Candles.CandleAccumulator.RollTo` | crates/zerovpn-worker/src/wg_poller.rs:116-133 | flushes exactly on a bucket change, both maps, into the old bucket: exactly the ids that moved bytes have a row, the summary of what they have shown |
| `Candles.CandleAccumulator.ObserveDevice` | crates/zerovpn-worker/src/wg_poller.rs:75-93 | the id's bar goes on being the count, sums, highest and lowest of all its rates in the minute; no other id is touched |
| `Candles.CandleAccumulator.ObserveServer` | crates/zerovpn-worker/src/wg_poller.rs:75-93 | the same for servers |
| `Candles.ObserveSummarises` | crates/zerovpn-worker/src/wg_poller.rs:75-93 | folding one more rate into a summary gives the summary of all of them |
| `Candles.IdleHasNotMoved` | crates/zerovpn-worker/src/wg_poller.rs:92-97 | an id with only zero rates in a minute gets no row |
| `Candles.NothingIsLost` | crates/zerovpn-worker/src/wg_poller.rs:74-156 | per id and minute, flushed sums plus the live bar equal all rates observed in that minute |
| `Candles.DrainedRowsAddUp` | crates/zerovpn-worker/src/wg_poller.rs:135-151 | dropping bars without traffic loses no sum |
| `Candles.NoMinuteTwice` | crates/zerovpn-worker/src/wg_poller.rs:116-133 | with non-decreasing time flushed minutes strictly increase |
| `Candles.NoMinuteTwiceIff` | crates/zerovpn-worker/src/wg_poller.rs:116-133 | drained minutes are distinct and the current one is not among them, if and only if no three ticks leave a minute and come back |
| `Candles.BarsStayBracketed` | crates/zerovpn-worker/src/wg_poller.rs:74-93 | low*samples <= sum <= high*samples for every bar and row |
| `Candles.ClockStepFlushesTwice` | crates/zerovpn-worker/src/wg_poller.rs:116-133 | a clock stepped back flushes one minute twice |
| `Chunked.DecodeLoop` | crates/zerovpn-worker/src/docker_stats.rs:200-227 | terminates on any bytes, never reads out of bounds, computes the recursive specification |
| `Chunked.DecodeChunked` | crates/zerovpn-worker/src/docker_stats.rs:200-227 | the same with the line parser of the source |
| `Chunked.LineSizeIsExact` | crates/zerovpn-worker/src/docker_stats.rs:208-214 | a well-formed size line parses to its hexadecimal value, extension ignored |
| `ChunkedBodies.HexDigitIff` | crates/zerovpn-worker/src/docker_stats.rs:211-214 | the digits are those of the lower- and upper-case alphabets, with their places as values |
| `ChunkedBodies.HexTextSize` | crates/zerovpn-worker/src/docker_stats.rs:208-214 | the lower-case hexadecimal text of a size is read as that size |
| `ChunkedBodies.ParseHexIff` | crates/zerovpn-worker/src/docker_stats.rs:211-214 | a size is read from exactly digits with at most one plus sign that do not overflow |
| `Utf8.ValidUtf8Iff` | crates/zerovpn-worker/src/docker_stats.rs:208-208 | a line is readable if and only if it is the encoding of some Unicode text |
| `Utf8.TrimStartDrops` | crates/zerovpn-worker/src/docker_stats.rs:210-210 | trimming removes exactly the leading white space of a text |
| `Utf8.TrimEndDrops` | crates/zerovpn-worker/src/docker_stats.rs:210-210 | and exactly the trailing white space |
| `Chunked.DecodeReturnsReadableData` | crates/zerovpn-worker/src/docker_stats.rs:195-227 | decoding any well-formed body returns the data up to the first line that is not UTF-8 |
| `Chunked.DecodeIsExactIff` | crates/zerovpn-worker/src/docker_stats.rs:195-227 | it returns all chunk data if and only if every size line is UTF-8 |
| `ChunkedBodies.DecodeSent` | crates/zerovpn-worker/src/docker_stats.rs:195-227 | round trip: any non-empty parts sent behind their lengths in lower-case hexadecimal decode to their concatenation |
| `ChunkedBodies.CutBodyKeepsWholeChunks` | crates/zerovpn-worker/src/docker_stats.rs:197-199 | a body that breaks off inside a chunk or a chunk line decodes to the whole chunks before it |
| `Chunked.PanicsIff` | crates/zerovpn-worker/src/docker_stats.rs:215-225 | it panics if and only if it reaches a line whose size carries the index past the address space |
| `Chunked.SixteenFPanics` | crates/zerovpn-worker/src/docker_stats.rs:219-220 | any body that starts with the line FFFFFFFFFFFFFFFF does |
| `Chunked.ObsTextExtensionCutsBody` | crates/zerovpn-worker/src/docker_stats.rs:208-214 | a well-formed body with a non-UTF-8 extension decodes to nothing |

## Left out

- RateLimit.DecisionIsExact: calls are ordered by time; the source reads the clock before it takes the mutex, so two threads may swap by a few microseconds.
- Reconcile.RunKeepsInv: in runs with faults the agent is seen through its journal; what it does to its host is the subject of `Recovery.ApplyState`, and `Delivery.AgentAnswers` connects the two for a fault-free reconcile.
- AgentRuns.EveryInterleaving: the host is seen as the interface it serves; the firewall and single commands are in `Apply` and `Recovery`. A restart is taken to happen while no request holds the lock.
- The texts of commands and the parsing of iptables-save, route, socket-listing and listen-port output: the observed plan and interface are values.
- SHA-256 and Curve25519: a digest is the document it was computed from, a private key stands for the public key it derives.
- Sockets, tokens, file permissions, zeroizing, process timeouts and threads: folded into "a step may fail".
- Loss of a rename after power failure: a journal file that was renamed is taken to survive.
- Outside interference with the host while the lock is held, other than somebody taking the name wg0; changes of the network (plan, UDP listeners) while one request is being served.
- The early exits of `reconcile` for none or several active servers, and the decryption of preshared keys.
- Integer widths of candle sums and sample counts, and floating-point rounding of live rates (modelled as reals).
- The other live-stats actions (server samples, health) and the rest of the polling tick.
- Family dispatch of `IpAllocator`: it only forwards to the two allocators modelled here.
- SQL, HTTP routes, mail, events, the web interface: input and output plumbing without state of its own.
