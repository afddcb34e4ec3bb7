/** Many agent processes and requests sharing one state directory and one host: every
    interleaving of their steps (crates/zerovpn-host-agent/src/apply_request.rs,
    apply.rs, state.rs). The host is seen here as the interface the agent serves. */
module AgentRuns {
  import opened Common
  import opened DesiredStates

  /** What an interface serves: an identity and the enabled peers. */
  datatype View = View(serverKey: Key, peers: set<DesiredPeer>)

  function ViewOf(st: DesiredState): View {
    View(st.serverKey, set p | p in st.peers && p.enabled)
  }

  datatype Live = Absent | Serving(view: View) | Mixed

  function LiveFor(journal: Option<DesiredState>): Live {
    if journal.None? then Absent else Serving(ViewOf(journal.value))
  }

  datatype Phase = Chosen | Locked | Admitted | Mutating | Verified

  /** A request in progress. `base` is the journal it read before taking the lock;
      `before` the host at its snapshot. */
  datatype Process = Process(candidate: DesiredState, base: Option<DesiredState>, phase: Phase, before: Live)

  type Pid = nat

  /** `broken` records that a process died or gave up rolling back in mid-mutation, or
      rolled back a commit that had landed. */
  datatype Agent = Agent(
    log: seq<DesiredState>, live: Live, lock: Option<Pid>, procs: map<Pid, Process>, broken: bool)
  {
    function Journal(): Option<DesiredState> {
      if log == [] then None else Some(log[|log| - 1])
    }

    function JournalRevision(): nat {
      if log == [] then 0 else log[|log| - 1].revision
    }
  }

  const FRESH := Agent([], Absent, None, map[], false)

  datatype Step =
    | Arrive(pid: Pid, candidate: DesiredState)
    | TakeLock(pid: Pid)
    | Admit(pid: Pid)
    | Capture(pid: Pid)
    | Mutate(pid: Pid, live: Live)
    | Verify(pid: Pid)
    | Record(pid: Pid)
    | Undo(pid: Pid)
    | Leave(pid: Pid)
    | Crash(pid: Pid)
    | Misread(pid: Pid)
    | Restart

  predicate In(a: Agent, pid: Pid, phase: Phase) {
    pid in a.procs && a.procs[pid].phase == phase
  }

  /** The checks `apply` makes against the journal it loads under the lock. */
  predicate Admissible(a: Agent, st: DesiredState) {
    Valid(st, a.JournalRevision()) && (a.log != [] ==> a.log[|a.log| - 1].serverKey == st.serverKey)
  }

  /** The snapshot and stage checks of the backend that `base` selected. */
  predicate BaseHolds(a: Agent, p: Process) {
    && a.live == LiveFor(p.base)
    && (p.base.Some? ==> p.candidate.revision > p.base.value.revision && p.candidate.serverKey == p.base.value.serverKey)
  }

  predicate Enabled(a: Agent, s: Step) {
    match s
    case Arrive(pid, _) => pid !in a.procs
    case TakeLock(pid) => In(a, pid, Chosen) && a.lock.None?
    case Admit(pid) => In(a, pid, Locked) && Admissible(a, a.procs[pid].candidate)
    case Capture(pid) => In(a, pid, Admitted) && BaseHolds(a, a.procs[pid])
    case Mutate(pid, _) => In(a, pid, Mutating)
    case Verify(pid) => In(a, pid, Mutating) && a.live == Serving(ViewOf(a.procs[pid].candidate))
    case Record(pid) => In(a, pid, Verified) && Valid(a.procs[pid].candidate, a.JournalRevision())
    case Undo(pid) => In(a, pid, Mutating) || In(a, pid, Verified)
    // A refused request: the lock was busy, or a check under the lock failed.
    case Leave(pid) => In(a, pid, Chosen) || In(a, pid, Locked) || In(a, pid, Admitted)
    case Crash(pid) => pid in a.procs
    // The rename landed, an error was returned, and reading it back failed too.
    case Misread(pid) => In(a, pid, Verified) && Valid(a.procs[pid].candidate, a.JournalRevision())
    // An agent starts up alone: what is live must match the journal, or be restorable.
    case Restart => a.lock.None? && (a.live == LiveFor(a.Journal()) || a.live == Absent)
  }

  function Finish(a: Agent, pid: Pid): Agent {
    a.(procs := a.procs - {pid}, lock := if a.lock == Some(pid) then None else a.lock)
  }

  function Advance(a: Agent, pid: Pid, phase: Phase): Agent
    requires pid in a.procs
  {
    a.(procs := a.procs[pid := a.procs[pid].(phase := phase)])
  }

  function Effect(a: Agent, s: Step): Agent
    requires Enabled(a, s)
  {
    match s
    case Arrive(pid, st) => a.(procs := a.procs[pid := Process(st, a.Journal(), Chosen, Absent)])
    case TakeLock(pid) => Advance(a, pid, Locked).(lock := Some(pid))
    case Admit(pid) => Advance(a, pid, Admitted)
    case Capture(pid) => a.(procs := a.procs[pid := a.procs[pid].(phase := Mutating, before := a.live)])
    case Mutate(_, live) => a.(live := live)
    case Verify(pid) => Advance(a, pid, Verified)
    case Record(pid) => Finish(a.(log := a.log + [a.procs[pid].candidate]), pid)
    case Undo(pid) => Finish(a.(live := a.procs[pid].before), pid)
    case Leave(pid) => Finish(a, pid)
    case Crash(pid) => Finish(a, pid).(broken := a.broken || In(a, pid, Mutating) || In(a, pid, Verified))
    case Misread(pid) => Finish(a.(log := a.log + [a.procs[pid].candidate], live := a.procs[pid].before, broken := true), pid)
    case Restart => a.(live := LiveFor(a.Journal()), broken := false)
  }

  function Do(a: Agent, s: Step): Agent {
    if Enabled(a, s) then Effect(a, s) else a
  }

  function Run(a: Agent, steps: seq<Step>): Agent {
    if steps == [] then a else Do(Run(a, steps[..|steps| - 1]), steps[|steps| - 1])
  }

  // ---------------------------------------------------------------- invariant

  predicate Ordered(log: seq<DesiredState>) {
    && (forall i :: 0 <= i < |log| ==> Valid(log[i], 0))
    && (forall i, j :: 0 <= i < j < |log| ==>
          log[i].revision < log[j].revision && log[i].serverKey == log[j].serverKey)
  }

  /** What a process past the lock knows: it alone is there, and the checks it made
      against the journal still hold. */
  predicate ProcessOk(a: Agent, pid: Pid, p: Process) {
    && (p.phase != Chosen ==> a.lock == Some(pid))
    && (p.phase == Admitted || p.phase == Mutating || p.phase == Verified ==> Admissible(a, p.candidate))
    && (p.phase == Mutating || p.phase == Verified ==> p.before == LiveFor(p.base))
    && (p.phase == Verified ==> a.live == Serving(ViewOf(p.candidate)))
  }

  /** Unless something broke, host and journal agree whenever nobody is
      mutating, and the mutating process can restore the agreement. */
  predicate AgreementOk(a: Agent) {
    if Busy(a) then a.procs[a.lock.value].before == LiveFor(a.Journal()) else a.live == LiveFor(a.Journal())
  }

  /** The lock holder has begun to change the host. */
  predicate Busy(a: Agent) {
    a.lock.Some? && (In(a, a.lock.value, Mutating) || In(a, a.lock.value, Verified))
  }

  /** A lock is held by a process that is there and has taken it. */
  predicate LockOk(a: Agent) {
    a.lock.Some? ==> a.lock.value in a.procs && a.procs[a.lock.value].phase != Chosen
  }

  predicate Inv(a: Agent) {
    && Ordered(a.log) && LockOk(a)
    && ProcessesOk(a)
    && (!a.broken ==> AgreementOk(a))
  }

  predicate ProcessesOk(a: Agent) {
    forall pid :: pid in a.procs ==> ProcessOk(a, pid, a.procs[pid])
  }

  /** Recording ends the only process that relied on the old journal. */
  lemma {:induction false} RecordKeepsProcesses(a: Agent, s: Step)
    requires Inv(a) && (s.Record? || s.Misread?) && Enabled(a, s)
    ensures Ordered(Effect(a, s).log) && ProcessesOk(Effect(a, s))
  {
    assert ProcessOk(a, s.pid, a.procs[s.pid]);
    var b := Effect(a, s);
    forall x | x in b.procs ensures ProcessOk(b, x, b.procs[x]) {
      assert ProcessOk(a, x, a.procs[x]) && a.procs[x].phase == Chosen;
    }
  }

  lemma {:induction false} StepKeepsProcesses(a: Agent, s: Step)
    requires Inv(a) && Enabled(a, s)
    ensures Ordered(Effect(a, s).log) && ProcessesOk(Effect(a, s))
  {
    if s.Record? || s.Misread? {
      RecordKeepsProcesses(a, s);
    } else if s.Restart? {
      forall x | x in a.procs ensures ProcessOk(Effect(a, s), x, a.procs[x]) {
        assert ProcessOk(a, x, a.procs[x]);
      }
    } else {
      var b := Effect(a, s);
      forall x | x in b.procs ensures ProcessOk(b, x, b.procs[x]) {
        assert x in a.procs ==> ProcessOk(a, x, a.procs[x]);
        if s.pid in a.procs { assert ProcessOk(a, s.pid, a.procs[s.pid]); }
      }
    }
  }

  lemma {:induction false} StepKeepsLock(a: Agent, s: Step)
    requires Inv(a) && Enabled(a, s)
    ensures LockOk(Effect(a, s))
  {
    if !s.Restart? && s.pid in a.procs { assert ProcessOk(a, s.pid, a.procs[s.pid]); }
  }

  lemma {:induction false} StepKeepsAgreement(a: Agent, s: Step)
    requires Inv(a) && Enabled(a, s) && !Effect(a, s).broken
    ensures AgreementOk(Effect(a, s))
  {
  }

  lemma {:induction false} StepKeepsInv(a: Agent, s: Step)
    requires Inv(a)
    ensures Inv(Do(a, s))
  {
    if Enabled(a, s) {
      StepKeepsProcesses(a, s);
      StepKeepsLock(a, s);
      if !Effect(a, s).broken { StepKeepsAgreement(a, s); }
    }
  }

  lemma {:induction false} RunKeepsInv(steps: seq<Step>)
    ensures Inv(Run(FRESH, steps))
  {
    if steps != [] {
      RunKeepsInv(steps[..|steps| - 1]);
      StepKeepsInv(Run(FRESH, steps[..|steps| - 1]), steps[|steps| - 1]);
    }
  }

  // ----------------------------------------------------------------- theorems

  /** Over every interleaving: journal revisions strictly increase, so each journalled
      revision is bound to one digest; the server key never changes once set; at most
      one process is past the lock, and no lock outlives its holder; and unless something broke and no agent has restarted
      since, host and journal agree whenever the lock holder is not in the middle of its
      transaction. */
  lemma {:induction false} EveryInterleaving(steps: seq<Step>)
    ensures var a := Run(FRESH, steps);
            && (forall i, j :: 0 <= i < j < |a.log| ==>
                  a.log[i].revision < a.log[j].revision && a.log[i].serverKey == a.log[j].serverKey)
            && (forall x, y :: x in a.procs && y in a.procs && a.procs[x].phase != Chosen && a.procs[y].phase != Chosen ==> x == y)
            && (a.lock.Some? ==> a.lock.value in a.procs && a.procs[a.lock.value].phase != Chosen)
            && (!a.broken && !Busy(a) ==> a.live == LiveFor(a.Journal()))
  {
    RunKeepsInv(steps);
    var a := Run(FRESH, steps);
    forall x, y | x in a.procs && y in a.procs && a.procs[x].phase != Chosen && a.procs[y].phase != Chosen
      ensures x == y
    {
      assert ProcessOk(a, x, a.procs[x]) && ProcessOk(a, y, a.procs[y]);
    }
  }

  /** The journal read that chose the backend may be stale by the time the lock is held.
      If the journal has moved on to something else, the request changes nothing on the
      host, whatever it tries, unless something broke and no agent has restarted since. */
  lemma {:induction false} StaleBaseMutatesNothing(steps: seq<Step>, pid: Pid, live: Live)
    requires var a := Run(FRESH, steps);
             !a.broken && pid in a.procs && LiveFor(a.procs[pid].base) != LiveFor(a.Journal())
    ensures var a := Run(FRESH, steps);
            Do(a, Mutate(pid, live)).live == a.live && !Enabled(a, Capture(pid))
  {
    RunKeepsInv(steps);
    var a := Run(FRESH, steps);
    assert ProcessOk(a, pid, a.procs[pid]);
  }

  /** Two concurrent first cutovers: once one of them is recorded, the other never
      changes the host, unless something broke and no agent has restarted since. */
  lemma {:induction false} OnlyOneCutoverTakes(steps: seq<Step>, pid: Pid, live: Live)
    requires var a := Run(FRESH, steps);
             !a.broken && a.log != [] && pid in a.procs && a.procs[pid].base.None?
    ensures var a := Run(FRESH, steps); Do(a, Mutate(pid, live)).live == a.live
  {
    StaleBaseMutatesNothing(steps, pid, live);
  }

  /** A commit is never refused after verification: the checks made under the lock still
      hold, so the second validation inside `record_applied` cannot fail. */
  lemma {:induction false} VerifiedRecords(steps: seq<Step>, pid: Pid)
    requires In(Run(FRESH, steps), pid, Verified)
    ensures var a := Run(FRESH, steps);
            && Enabled(a, Record(pid))
            && Do(a, Record(pid)).Journal() == Some(a.procs[pid].candidate)
            && Do(a, Record(pid)).live == LiveFor(Do(a, Record(pid)).Journal())
  {
    RunKeepsInv(steps);
    var a := Run(FRESH, steps);
    assert ProcessOk(a, pid, a.procs[pid]);
  }
}
