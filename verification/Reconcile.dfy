/** The reconcile protocol between the API's database row and the host agent's
    journal (crates/zerovpn-api/src/host_agent_controller.rs), as a step machine.

    The advisory transaction lock admits one reconciler at a time; everything else is
    adversarial: a transaction may be rolled back at any point, a reply may be lost, a
    request may be delivered arbitrarily late or never, and the agent may fail a
    request it could have applied. */
module Reconcile {
  import opened Common
  import opened DesiredStates
  import opened WireGuard
  import opened WgConfig

  const I64_MAX := 0x7FFF_FFFF_FFFF_FFFF

  /** What the database says the host should serve. */
  datatype Content = Content(serverKey: Key, peers: seq<DesiredPeer>)

  function Candidate(c: Content, revision: U64): DesiredState {
    DesiredState(revision, c.serverKey, c.peers)
  }

  function ContentHash(c: Content): Digest {
    DigestOf(Candidate(c, 0))
  }

  datatype Status = Pending | Applied | Failed

  /** One row of `host_agent_reconcile`. */
  datatype Row = Row(
    desiredRevision: nat, desiredContent: Digest, desiredDigest: Digest,
    appliedRevision: nat, appliedDigest: Digest, status: Status)

  const FRESH_ROW := Row(0, NoDigest, NoDigest, 0, NoDigest, Pending)

  datatype Request = Request(id: nat, state: DesiredState)

  /** Where the one reconciler that holds the advisory lock is. */
  datatype Phase =
    | Idle
    | Snapshotted(content: Content)
    | StatusRead(content: Content, agentRevision: nat, agentDigest: Digest)
    | Waiting(request: Request, acked: bool)

  /** `orphans` are the requests whose transaction was rolled back after they were
      sent; `log` lists every state the journal has held, oldest first. */
  datatype World = World(
    content: Content, row: Row, phase: Phase, inFlight: set<Request>,
    log: seq<DesiredState>, nextId: nat, orphans: set<nat>)
  {
    function Journal(): Option<DesiredState> {
      if log == [] then None else Some(log[|log| - 1])
    }

    function JournalRevision(): nat {
      if log == [] then 0 else log[|log| - 1].revision
    }

    function JournalDigest(): Digest {
      if log == [] then NoDigest else DigestOf(log[|log| - 1])
    }
  }

  function Start(c: Content): World {
    World(c, FRESH_ROW, Idle, {}, [], 0, {})
  }

  /** `next_revision`: one beyond whichever side is ahead, unless that overflows. */
  function NextRevision(databaseRevision: int, agentRevision: int): (r: Option<U64>)
    ensures r.Some? <==> 0 <= databaseRevision < I64_MAX && 0 <= agentRevision < I64_MAX
    ensures r.Some? ==> databaseRevision < r.value && agentRevision < r.value
    ensures r.Some? ==> r.value - 1 in {databaseRevision, agentRevision}
  {
    if databaseRevision < 0 || agentRevision < 0 then None
    else if Max(databaseRevision, agentRevision) >= I64_MAX then None
    else Some(Max(databaseRevision, agentRevision) + 1)
  }

  /** What the agent journals: a state that passes the checks `ApplyCoordinator::apply`
      makes against the journal, and that an interface can be verified against. */
  ghost predicate Accepts(w: World, st: DesiredState) {
    && Valid(st, w.JournalRevision()) && !UsesZeroPsk(st)
    && (w.log != [] ==> w.log[|w.log| - 1].serverKey == st.serverKey)
  }

  predicate Converged(row: Row, c: Content, agentRevision: nat, agentDigest: Digest) {
    && row.desiredContent == ContentHash(c)
    && row.desiredRevision == agentRevision
    && row.desiredDigest == agentDigest
  }

  datatype Step =
    | ChangeContent(content: Content)
    | Begin
    | ReadStatus
    | Confirm
    | Send
    | Deliver(request: Request, succeeds: bool)
    | CommitApplied
    | CommitFailed
    | Abort

  predicate Enabled(w: World, s: Step) {
    match s
    // Peer-affecting writes take the same advisory lock.
    case ChangeContent(_) => w.phase.Idle?
    case Begin => w.phase.Idle?
    case ReadStatus => w.phase.Snapshotted? && w.JournalRevision() <= I64_MAX
    case Confirm =>
      && w.phase.StatusRead?
      && Converged(w.row, w.phase.content, w.phase.agentRevision, w.phase.agentDigest)
    case Send =>
      && w.phase.StatusRead?
      && !Converged(w.row, w.phase.content, w.phase.agentRevision, w.phase.agentDigest)
      && var n := NextRevision(w.row.desiredRevision, w.phase.agentRevision);
         n.Some? && Valid(Candidate(w.phase.content, n.value), w.phase.agentRevision)
    case Deliver(q, _) => q in w.inFlight
    case CommitApplied => w.phase.Waiting? && w.phase.acked
    case CommitFailed => w.phase.Waiting?
    case Abort => !w.phase.Idle?
  }

  /** The row as the transaction of a sent request would commit it. */
  function DesiredRow(row: Row, st: DesiredState, status: Status): Row {
    row.(desiredRevision := st.revision,
         desiredContent := DigestOf(st.(revision := 0)),
         desiredDigest := DigestOf(st), status := status)
  }

  ghost function Effect(w: World, s: Step): World
    requires Enabled(w, s)
  {
    match s
    case ChangeContent(c) => w.(content := c)
    case Begin => w.(phase := Snapshotted(w.content))
    case ReadStatus =>
      w.(phase := StatusRead(w.phase.content, w.JournalRevision(), w.JournalDigest()))
    case Confirm =>
      var row := if w.row.status == Applied && w.row.appliedRevision == w.phase.agentRevision
                    && w.row.appliedDigest == w.phase.agentDigest
                 then w.row
                 else w.row.(appliedRevision := w.phase.agentRevision,
                             appliedDigest := w.phase.agentDigest, status := Applied);
      w.(row := row, phase := Idle)
    case Send =>
      var n := NextRevision(w.row.desiredRevision, w.phase.agentRevision).value;
      var q := Request(w.nextId, Candidate(w.phase.content, n));
      w.(phase := Waiting(q, false), inFlight := w.inFlight + {q}, nextId := w.nextId + 1)
    case Deliver(q, succeeds) =>
      if succeeds && Accepts(w, q.state) then
        var phase := if w.phase.Waiting? && w.phase.request == q then w.phase.(acked := true) else w.phase;
        w.(inFlight := w.inFlight - {q}, log := w.log + [q.state], phase := phase)
      else
        w.(inFlight := w.inFlight - {q})
    case CommitApplied =>
      var st := w.phase.request.state;
      var row := DesiredRow(w.row, st, Applied)
                 .(appliedRevision := st.revision, appliedDigest := DigestOf(st));
      w.(row := row, phase := Idle)
    case CommitFailed =>
      w.(row := DesiredRow(w.row, w.phase.request.state, Failed), phase := Idle)
    case Abort =>
      w.(phase := Idle,
         orphans := if w.phase.Waiting? then w.orphans + {w.phase.request.id} else w.orphans)
  }

  /** A step that is not enabled does nothing, so every list of steps is a run. */
  ghost function Do(w: World, s: Step): World {
    if Enabled(w, s) then Effect(w, s) else w
  }

  ghost function Run(w: World, steps: seq<Step>): World {
    if steps == [] then w else Do(Run(w, steps[..|steps| - 1]), steps[|steps| - 1])
  }

  // ---------------------------------------------------------------- invariant

  predicate Below(inFlight: set<Request>, bound: nat) {
    forall q :: q in inFlight ==> q.state.revision <= bound
  }

  predicate RowOk(row: Row) {
    && row.appliedRevision <= row.desiredRevision
    && (row.desiredContent.NoDigest? ==> row.desiredRevision == 0)
    && (row.desiredContent.DigestOf? ==>
          && row.desiredDigest.DigestOf?
          && row.desiredContent.state == row.desiredDigest.state.(revision := 0)
          && row.desiredDigest.state.revision == row.desiredRevision)
    && (row.status == Applied ==>
          row.appliedRevision == row.desiredRevision && row.appliedDigest == row.desiredDigest)
  }

  predicate LogOk(log: seq<DesiredState>) {
    && (forall i :: 0 <= i < |log| ==> Valid(log[i], 0))
    && (forall i, j :: 0 <= i < j < |log| ==>
          log[i].revision < log[j].revision && log[i].serverKey == log[j].serverKey)
  }

  predicate PhaseOk(w: World) {
    var ahead := w.JournalRevision();
    match w.phase
    case Idle => true
    case Snapshotted(c) => c == w.content
    case StatusRead(c, rev, digest) =>
      && c == w.content
      && rev <= ahead <= Max(w.row.desiredRevision, rev) + 1
      && Below(w.inFlight, Max(w.row.desiredRevision, rev) + 1)
      && (rev == ahead ==> digest == w.JournalDigest())
    case Waiting(q, acked) =>
      && q.state == Candidate(w.content, q.state.revision)
      && q.id < w.nextId && q.id !in w.orphans
      && ahead <= q.state.revision <= Max(w.row.desiredRevision, ahead) + 1
      && w.row.desiredRevision < q.state.revision
      && Below(w.inFlight, q.state.revision)
      && (acked ==> w.Journal() == Some(q.state))
  }

  predicate Current(w: World, q: Request) {
    w.phase.Waiting? && w.phase.request == q
  }

  /** No request outruns the row and the journal by more than one revision, and only a
      request whose transaction was rolled back (or is still open) outruns the row. */
  predicate RequestsOk(w: World) {
    && Below(w.inFlight, Max(w.row.desiredRevision, w.JournalRevision()) + 1)
    && (forall q :: q in w.inFlight ==> q.id < w.nextId)
    && (forall id :: id in w.orphans ==> id < w.nextId)
    && (forall q :: q in w.inFlight && q.id !in w.orphans && !Current(w, q) ==>
          q.state.revision <= w.row.desiredRevision)
  }

  predicate Inv(w: World) {
    RowOk(w.row) && LogOk(w.log) && PhaseOk(w) && RequestsOk(w)
  }

  lemma {:induction false} SendKeepsInv(w: World)
    requires Inv(w) && Enabled(w, Send)
    ensures Inv(Effect(w, Send))
  {
  }

  lemma {:induction false} DeliverKeepsInv(w: World, q: Request, succeeds: bool)
    requires Inv(w) && Enabled(w, Deliver(q, succeeds))
    ensures Inv(Effect(w, Deliver(q, succeeds)))
  {
    var w' := Effect(w, Deliver(q, succeeds));
    if succeeds && Accepts(w, q.state) {
      assert w'.JournalRevision() == q.state.revision;
      assert LogOk(w'.log);
    }
  }

  lemma {:induction false} CloseKeepsInv(w: World, s: Step)
    requires Inv(w) && Enabled(w, s)
    requires s.Confirm? || s.CommitApplied? || s.CommitFailed? || s.Abort?
    ensures Inv(Effect(w, s))
  {
    var w' := Effect(w, s);
    assert RowOk(w'.row);
  }

  lemma {:induction false} StepKeepsInv(w: World, s: Step)
    requires Inv(w)
    ensures Inv(Do(w, s))
  {
    if Enabled(w, s) {
      match s
      case Send => SendKeepsInv(w);
      case Deliver(q, succeeds) => DeliverKeepsInv(w, q, succeeds);
      case Confirm => CloseKeepsInv(w, s);
      case CommitApplied => CloseKeepsInv(w, s);
      case CommitFailed => CloseKeepsInv(w, s);
      case Abort => CloseKeepsInv(w, s);
      case _ =>
    }
  }

  /** Every state of every run satisfies the invariant. */
  lemma {:induction false} RunKeepsInv(w: World, steps: seq<Step>)
    requires Inv(w)
    ensures Inv(Run(w, steps))
  {
    if steps != [] {
      RunKeepsInv(w, steps[..|steps| - 1]);
      StepKeepsInv(Run(w, steps[..|steps| - 1]), steps[|steps| - 1]);
    }
  }

  /** No run takes a revision past what the database column can hold. */
  lemma {:induction false} RevisionsFit(c: Content, steps: seq<Step>)
    ensures var w := Run(Start(c), steps); w.JournalRevision() <= I64_MAX && Below(w.inFlight, I64_MAX)
  {
    if steps != [] { RevisionsFit(c, steps[..|steps| - 1]); }
  }

  /** What holds in every state of every run from an empty database row and journal:
      the applied revision never passes the desired one, journal revisions strictly
      increase (so a revision is bound to one digest for good) under one server
      identity, no request outruns both sides by more than one revision, and revisions
      fit the database column. */
  lemma {:induction false} EveryRun(c: Content, steps: seq<Step>)
    ensures var w := Run(Start(c), steps);
            && Inv(w)
            && w.row.appliedRevision <= w.row.desiredRevision
            && (forall i, j :: 0 <= i < j < |w.log| ==>
                  w.log[i].revision < w.log[j].revision && w.log[i].serverKey == w.log[j].serverKey)
            && (forall q :: q in w.inFlight ==>
                  q.state.revision <= Max(w.row.desiredRevision, w.JournalRevision()) + 1)
            && w.JournalRevision() <= I64_MAX
  {
    RunKeepsInv(Start(c), steps);
    RevisionsFit(c, steps);
  }

  // ------------------------------------------------- what happens to the row

  /** Only the three commits of `reconcile` touch the row. A failed one records what was
      wanted and that it failed, and leaves what is applied alone; a successful one and a
      confirmation record as applied what is desired. */
  lemma {:induction false} RowChanges(w: World, s: Step)
    requires Inv(w) && Enabled(w, s)
    ensures var before, after := w.row, Effect(w, s).row;
            && (!(s.Confirm? || s.CommitApplied? || s.CommitFailed?) ==> after == before)
            && (s.CommitFailed? ==>
                  && after.status == Failed
                  && after.appliedRevision == before.appliedRevision && after.appliedDigest == before.appliedDigest)
            && (s.CommitFailed? || s.CommitApplied? ==>
                  && after.desiredRevision == w.phase.request.state.revision
                  && after.desiredDigest == DigestOf(w.phase.request.state)
                  && after.desiredContent == ContentHash(w.content))
            && (s.Confirm? || s.CommitApplied? ==>
                  && after.status == Applied
                  && after.appliedRevision == after.desiredRevision && after.appliedDigest == after.desiredDigest)
            && (s.Confirm? ==>
                  && after.desiredRevision == before.desiredRevision && after.desiredDigest == before.desiredDigest
                  && after.desiredContent == before.desiredContent)
  {
  }

  /** Neither revision of the row ever goes back. */
  lemma {:induction false} RowNeverGoesBack(w: World, s: Step)
    requires Inv(w)
    ensures w.row.appliedRevision <= Do(w, s).row.appliedRevision
    ensures w.row.desiredRevision <= Do(w, s).row.desiredRevision
  {
    if Enabled(w, s) { RowChanges(w, s); }
  }

  /** A revision and digest of the journal's, at some time: zero with none, or those of a
      state the journal has held. */
  ghost predicate Held(log: seq<DesiredState>, revision: nat, digest: Digest) {
    || (revision == 0 && digest == NoDigest)
    || exists i :: 0 <= i < |log| && log[i].revision == revision && digest == DigestOf(log[i])
  }

  ghost predicate RowIsHeld(w: World) {
    && Held(w.log, w.row.appliedRevision, w.row.appliedDigest)
    && (w.phase.StatusRead? ==> Held(w.log, w.phase.agentRevision, w.phase.agentDigest))
  }

  lemma {:induction false} HeldForGood(log: seq<DesiredState>, st: DesiredState, revision: nat, digest: Digest)
    requires Held(log, revision, digest)
    ensures Held(log + [st], revision, digest)
  {
    if i :| 0 <= i < |log| && log[i].revision == revision && digest == DigestOf(log[i]) {
      assert (log + [st])[i] == log[i];
    }
  }

  lemma {:induction false} StepKeepsHeld(w: World, s: Step)
    requires Inv(w) && RowIsHeld(w)
    ensures RowIsHeld(Do(w, s))
  {
    if Enabled(w, s) {
      RowChanges(w, s);
      if s.Deliver? {
        HeldForGood(w.log, s.request.state, w.row.appliedRevision, w.row.appliedDigest);
        if w.phase.StatusRead? {
          HeldForGood(w.log, s.request.state, w.phase.agentRevision, w.phase.agentDigest);
        }
      } else if s.ReadStatus? || s.CommitApplied? {
        assert w.log != [] ==> w.log[|w.log| - 1].revision == w.JournalRevision();
      }
    }
  }

  /** Over every run the row says as applied only what the agent's journal has really held:
      a nonzero applied revision is one of the log's, with that entry's digest. */
  lemma {:induction false} AppliedWasJournalled(c: Content, steps: seq<Step>)
    ensures RowIsHeld(Run(Start(c), steps))
  {
    if steps != [] {
      var front := steps[..|steps| - 1];
      AppliedWasJournalled(c, front);
      RunKeepsInv(Start(c), front);
      StepKeepsHeld(Run(Start(c), front), steps[|steps| - 1]);
    }
  }

  // ------------------------------------------------- what 'applied' guarantees

  /** The row says applied, and the journal holds exactly that revision, that digest
      and the content the database has now. */
  predicate AppliedExactly(w: World) {
    && w.row.status == Applied
    && w.Journal().Some?
    && w.Journal().value == Candidate(w.content, w.Journal().value.revision)
    && w.row.appliedRevision == w.row.desiredRevision == w.JournalRevision()
    && w.row.appliedDigest == w.row.desiredDigest == w.JournalDigest()
    && w.row.desiredContent == ContentHash(w.content)
  }

  /** No request issued so far can still change the journal. */
  predicate Settled(w: World) {
    Below(w.inFlight, w.JournalRevision())
  }

  /** The apply path of `reconcile`: whatever was rolled back, lost or delayed before,
      a commit after the agent's reply finds the journal holding exactly that state,
      and every request in flight is already stale. */
  lemma {:induction false} CommitAppliedIsExact(w: World)
    requires Inv(w) && Enabled(w, CommitApplied)
    ensures AppliedExactly(Effect(w, CommitApplied))
    ensures Settled(Effect(w, CommitApplied))
  {
  }

  lemma {:induction false} StaleRequestsStayStale(w: World, s: Step, id: nat)
    requires Inv(w) && id <= w.nextId
    requires forall q :: q in w.inFlight && q.id < id ==> q.state.revision <= w.JournalRevision()
    ensures id <= Do(w, s).nextId
    ensures forall q :: q in Do(w, s).inFlight && q.id < id ==>
              q.state.revision <= Do(w, s).JournalRevision()
  {
  }

  /** After such a commit, in every continuation, no request that had been issued
      before the commit ever changes the journal again. */
  lemma {:induction false} CommittedStateIsNeverDisplaced(w: World, steps: seq<Step>, q: Request, ok: bool)
    requires Inv(w) && Settled(w)
    requires q.id < w.nextId
    ensures Do(Run(w, steps), Deliver(q, ok)).log == Run(w, steps).log
  {
    StaleAlong(w, steps);
  }

  lemma {:induction false} StaleAlong(w: World, steps: seq<Step>)
    requires Inv(w) && Settled(w)
    ensures var v := Run(w, steps);
            && Inv(v) && w.nextId <= v.nextId
            && forall q :: q in v.inFlight && q.id < w.nextId ==> q.state.revision <= v.JournalRevision()
  {
    if steps != [] {
      var front := steps[..|steps| - 1];
      StaleAlong(w, front);
      StepKeepsInv(Run(w, front), steps[|steps| - 1]);
      StaleRequestsStayStale(Run(w, front), steps[|steps| - 1], w.nextId);
    }
  }

  /** A request that can still overturn the committed row `w.row`. */
  ghost predicate Threatens(w: World, q: Request) {
    && q in w.inFlight
    && q.id in w.orphans
    && q.state.revision == w.row.desiredRevision + 1
    && WellFormed(q.state) && !UsesZeroPsk(q.state)
    && (w.log != [] ==> w.log[|w.log| - 1].serverKey == q.state.serverKey)
  }

  /** When an applied row can be displaced: exactly when a request is still in flight
      that carries the next revision and whose own transaction was rolled back after
      it was sent. Nothing else the protocol can have left behind is dangerous. */
  lemma {:induction false} AppliedRowIsThreatenedIff(w: World)
    requires Inv(w) && w.phase.Idle? && AppliedExactly(w)
    ensures (exists q :: q in w.inFlight && Do(w, Deliver(q, true)).log != w.log)
        <==> (exists q :: Threatens(w, q))
  {
    if q :| q in w.inFlight && Do(w, Deliver(q, true)).log != w.log {
      assert Accepts(w, q.state);
      assert Threatens(w, q);
    }
    if q :| Threatens(w, q) {
      assert Accepts(w, q.state);
      assert |Do(w, Deliver(q, true)).log| == |w.log| + 1;
    }
  }

  predicate Deliveries(steps: seq<Step>) {
    forall i :: 0 <= i < |steps| ==> steps[i].Deliver?
  }

  /** Where no request threatens the row, deliveries change nothing but what is in flight. */
  lemma {:induction false} HarmlessDeliveries(w: World, steps: seq<Step>)
    requires Inv(w) && w.phase.StatusRead? && w.row.desiredRevision == w.JournalRevision()
    requires Deliveries(steps) && !exists q :: Threatens(w, q)
    ensures var v := Run(w, steps); v == w.(inFlight := v.inFlight) && v.inFlight <= w.inFlight
  {
    if steps != [] {
      var front, last := steps[..|steps| - 1], steps[|steps| - 1];
      HarmlessDeliveries(w, front);
      AcceptedThreatens(w, Run(w, front), last.request);
    }
  }

  /** Only a threatening request gets past a journal that is level with the row. */
  lemma {:induction false} AcceptedThreatens(w: World, v: World, q: Request)
    requires Inv(w) && w.phase.StatusRead? && w.row.desiredRevision == w.JournalRevision()
    requires v == w.(inFlight := v.inFlight) && v.inFlight <= w.inFlight
    ensures q in v.inFlight && Accepts(v, q.state) ==> Threatens(w, q)
  {
  }

  /** The confirm path has no reply to lean on: it compares the row with a status read a
      moment ago. Whatever is delivered in between, it commits an exact row, if and only
      if no request of a rolled-back transaction with the next revision is in flight at
      the time of that read. */
  lemma {:induction false} ConfirmIsExactIff(w: World)
    requires Inv(w) && Enabled(w, Confirm) && w.phase.agentRevision == w.JournalRevision()
    ensures (forall steps :: Deliveries(steps) ==> AppliedExactly(Do(Run(w, steps), Confirm)))
       <==> !exists q :: Threatens(w, q)
  {
    if q :| Threatens(w, q) {
      var steps := [Deliver(q, true)];
      assert steps[..0] == [] && Run(w, steps[..0]) == w;
      assert Accepts(w, q.state);
      var v := Run(w, steps);
      assert v == Effect(w, Deliver(q, true)) && v.JournalRevision() == q.state.revision;
      assert Deliveries(steps) && !AppliedExactly(Do(v, Confirm));
    } else {
      forall steps | Deliveries(steps) ensures AppliedExactly(Do(Run(w, steps), Confirm)) {
        HarmlessDeliveries(w, steps);
      }
    }
  }

  /** Without rolled-back sends nothing overtakes a status read by more than the row knows. */
  predicate NotOvertaken(w: World) {
    w.orphans == {} && w.phase.StatusRead? ==> w.JournalRevision() <= Max(w.row.desiredRevision, w.phase.agentRevision)
  }

  lemma {:induction false} RunIsNotOvertaken(c: Content, steps: seq<Step>)
    ensures NotOvertaken(Run(Start(c), steps))
  {
    if steps != [] {
      var front := steps[..|steps| - 1];
      RunIsNotOvertaken(c, front);
      RunKeepsInv(Start(c), front);
      StepIsNotOvertaken(Run(Start(c), front), steps[|steps| - 1]);
    }
  }

  lemma {:induction false} StepIsNotOvertaken(w: World, s: Step)
    requires Inv(w) && NotOvertaken(w)
    ensures NotOvertaken(Do(w, s))
  {
    if Enabled(w, s) && s.Deliver? && Accepts(w, s.request.state) && w.phase.StatusRead? && w.orphans == {} {
      assert !Current(w, s.request);
      assert s.request.state.revision <= w.row.desiredRevision;
    }
  }

  /** In every run in which no transaction was rolled back after its send, the confirm path
      commits only exact rows, and no request in flight can displace them. */
  lemma {:induction false} ConfirmIsExactWithoutRollbacks(c: Content, steps: seq<Step>)
    requires var w := Run(Start(c), steps); w.orphans == {} && Enabled(w, Confirm)
    ensures var w := Run(Start(c), steps); AppliedExactly(Effect(w, Confirm)) && Settled(Effect(w, Confirm))
  {
    RunKeepsInv(Start(c), steps);
    RunIsNotOvertaken(c, steps);
  }

  ghost predicate Reaches(w: World, v: World) {
    exists steps :: Run(w, steps) == v
  }

  lemma {:induction false} ReachesNext(w: World, v: World, s: Step)
    requires Reaches(w, v)
    ensures Reaches(w, Do(v, s))
  {
    var steps :| Run(w, steps) == v;
    assert (steps + [s])[..|steps|] == steps;
    assert Run(w, steps + [s]) == Do(v, s);
  }

  /** Content `c` sent as revision `n` by a reconciler that started from `w`. */
  function Sent(w: World, c: Content, n: U64): World {
    var q := Request(w.nextId, Candidate(c, n));
    w.(phase := Waiting(q, false), inFlight := w.inFlight + {q}, nextId := w.nextId + 1)
  }

  lemma {:induction false} ReachesSent(w0: World, w: World)
    requires Reaches(w0, w) && w.phase.Idle?
    requires WellFormed(Candidate(w.content, 0)) && !UpToDate(w)
    requires w.row.desiredRevision < I64_MAX && w.JournalRevision() < I64_MAX
    ensures Reaches(w0, Sent(w, w.content, Max(w.row.desiredRevision, w.JournalRevision()) + 1))
  {
    SameAtAnyRevision(w.content, 0, Max(w.row.desiredRevision, w.JournalRevision()) + 1);
    ReachesNext(w0, w, Begin);
    ReachesNext(w0, Do(w, Begin), ReadStatus);
    ReadThenSend(w);
    ReachesNext(w0, Do(Do(w, Begin), ReadStatus), Send);
  }

  /** The first three steps of a reconcile that has something to send. */
  lemma {:induction false} ReadThenSend(w: World)
    requires w.phase.Idle? && w.JournalRevision() <= I64_MAX && !UpToDate(w)
    ensures var read := Do(Do(w, Begin), ReadStatus);
            var n := Max(w.row.desiredRevision, w.JournalRevision()) + 1;
            && read == w.(phase := StatusRead(w.content, w.JournalRevision(), w.JournalDigest()))
            && (Enabled(read, Send) <==> n <= I64_MAX && WellFormed(Candidate(w.content, n)))
            && (n <= I64_MAX && WellFormed(Candidate(w.content, n)) ==> Do(read, Send) == Sent(w, w.content, n))
  {
  }

  /** A content that some interface can serve. */
  ghost predicate Servable(c: Content) {
    WellFormed(Candidate(c, 0)) && !UsesZeroPsk(Candidate(c, 0))
  }

  /** X applied at revision 1 with nothing in flight. */
  function OneApplied(x: Content): World {
    var st := Candidate(x, 1);
    World(x, Row(1, ContentHash(x), DigestOf(st), 1, DigestOf(st), Applied), Idle, {}, [st], 1, {})
  }

  lemma {:induction false} ReachesOneApplied(x: Content)
    requires Servable(x)
    ensures Reaches(Start(x), OneApplied(x))
  {
    assert Run(Start(x), []) == Start(x);
    SameAtAnyRevision(x, 0, 1);
    ReachesSent(Start(x), Start(x));
    var sent := Sent(Start(x), x, 1);
    var q := sent.phase.request;
    ReachesNext(Start(x), sent, Deliver(q, true));
    var done := Do(sent, Deliver(q, true));
    assert done.log == [q.state] && done.inFlight == {};
    ReachesNext(Start(x), done, CommitApplied);
    assert Do(done, CommitApplied) == OneApplied(x);
  }

  /** The run in which that happens: X is applied; a reconcile for Y sends revision 2
      and is rolled back; the content returns to X and is confirmed as applied; then
      the delayed request lands. The row still reads 'applied' at revision 1 for X
      while the journal holds Y at revision 2. */
  lemma {:induction false} RolledBackSendDisplacesAppliedRow(x: Content, y: Content)
    requires Servable(x) && Servable(y) && x.serverKey == y.serverKey && x != y
    ensures exists w ::
              && Reaches(Start(x), w)
              && w.phase.Idle? && w.content == x
              && w.row.status == Applied && w.row.appliedRevision == 1
              && w.Journal() == Some(Candidate(y, 2))
  {
    ReachesOrphaned(x, y);
    var w := Orphaned(x, y);
    ReachesConfirmed(Start(x), w);
    SameAtAnyRevision(y, 0, 2);
    ReachesNext(Start(x), w, Deliver(Request(1, Candidate(y, 2)), true));
    assert Do(w, Deliver(Request(1, Candidate(y, 2)), true)).log == [Candidate(x, 1), Candidate(y, 2)];
  }

  /** X applied, and a request for Y in flight whose transaction was rolled back. */
  function Orphaned(x: Content, y: Content): World {
    OneApplied(x).(inFlight := {Request(1, Candidate(y, 2))}, nextId := 2, orphans := {1})
  }

  lemma {:induction false} ReachesOrphaned(x: Content, y: Content)
    requires Servable(x) && Servable(y) && x != y
    ensures Reaches(Start(x), Orphaned(x, y))
  {
    ReachesOneApplied(x);
    var w1 := OneApplied(x);
    ReachesNext(Start(x), w1, ChangeContent(y));
    var w2 := Do(w1, ChangeContent(y));
    ReachesSent(Start(x), w2);
    var w3 := Sent(w2, y, 2);
    ReachesNext(Start(x), w3, Abort);
    var w4 := Do(w3, Abort);
    ReachesNext(Start(x), w4, ChangeContent(x));
    assert Do(w4, ChangeContent(x)) == Orphaned(x, y);
  }

  /** And the run in which the confirm itself commits an inexact row: the delayed request
      lands between the status read and the commit. At the moment of the commit the row
      reads 'applied' at revision 1 for X while the journal already holds Y. */
  lemma {:induction false} OrphanLandsBeforeConfirm(x: Content, y: Content)
    requires Servable(x) && Servable(y) && x.serverKey == y.serverKey && x != y
    ensures exists w ::
              && Reaches(Start(x), w) && Enabled(w, Confirm)
              && Effect(w, Confirm).row.status == Applied && Effect(w, Confirm).row.appliedRevision == 1
              && Effect(w, Confirm).content == x && Effect(w, Confirm).Journal() == Some(Candidate(y, 2))
              && !AppliedExactly(Effect(w, Confirm))
  {
    ReachesOrphaned(x, y);
    var w := Orphaned(x, y);
    ReachesNext(Start(x), w, Begin);
    ReachesNext(Start(x), Do(w, Begin), ReadStatus);
    var read := Do(Do(w, Begin), ReadStatus);
    SameAtAnyRevision(y, 0, 2);
    var q := Request(1, Candidate(y, 2));
    ReachesNext(Start(x), read, Deliver(q, true));
    var landed := Do(read, Deliver(q, true));
    assert landed.log == [Candidate(x, 1), Candidate(y, 2)];
    assert Enabled(landed, Confirm);
  }

  /** Confirming an up-to-date row that already says so changes nothing. */
  lemma {:induction false} ReachesConfirmed(w0: World, w: World)
    requires Reaches(w0, w) && w.phase.Idle? && UpToDate(w) && w.JournalRevision() <= I64_MAX
    requires w.row.status == Applied && w.row.appliedRevision == w.JournalRevision()
    requires w.row.appliedDigest == w.JournalDigest()
    ensures Do(Do(Do(w, Begin), ReadStatus), Confirm) == w
    ensures Reaches(w0, Do(Do(Do(w, Begin), ReadStatus), Confirm))
  {
  }

  lemma {:induction false} SameAtAnyRevision(c: Content, a: U64, b: U64)
    requires WellFormed(Candidate(c, a))
    ensures WellFormed(Candidate(c, b))
    ensures UsesZeroPsk(Candidate(c, a)) <==> UsesZeroPsk(Candidate(c, b))
  {
    assert forall i :: 0 <= i < |c.peers| ==>
      PeerAdmissible(Candidate(c, a), i) ==> PeerAdmissible(Candidate(c, b), i);
  }

  predicate UpToDate(w: World) {
    Converged(w.row, w.content, w.JournalRevision(), w.JournalDigest())
  }

  // ------------------------------------------------------------- convergence

  /** The agent's side: the key it holds, and whether its host is fit to be changed (see
      `Delivery.AgentAnswers`). */
  datatype Site = Site(key: PrivateKey, ready: bool)

  predicate CanServe(site: Site, st: DesiredState) {
    site.ready && site.key.wellFormed && site.key.publicKey == st.serverKey
  }

  /** One reconcile in which nothing fails: the agent answers as its host and key allow. */
  ghost function ReconcileOnce(w: World, site: Site): World
    requires w.phase.Idle?
  {
    var read := Do(Do(w, Begin), ReadStatus);
    if Enabled(read, Confirm) then Do(read, Confirm)
    else if Enabled(read, Send) then
      var sent := Do(read, Send);
      var able := CanServe(site, sent.phase.request.state);
      Do(Do(sent, Deliver(sent.phase.request, able)),
         if able && Accepts(sent, sent.phase.request.state) then CommitApplied else CommitFailed)
    else Do(read, Abort)
  }

  /** What reconciliation needs of its inputs: a content `validate` accepts and an
      interface can serve, under the identity the agent holds and the journal names, a
      host fit to be changed, and a revision left to give it. */
  ghost predicate Reconcilable(w: World, site: Site) {
    && Servable(w.content) && CanServe(site, Candidate(w.content, 0))
    && (w.log != [] ==> w.log[|w.log| - 1].serverKey == w.content.serverKey)
    && w.row.desiredRevision < I64_MAX && w.JournalRevision() < I64_MAX
  }

  /** From any reachable state at rest, one fault-free reconcile brings the journal to
      the database's content exactly when the content can be applied at all. (Every run
      keeps the journal revision within the database column, see `EveryRun`.) */
  lemma {:induction false} FaultFreeReconcileConvergesIff(w: World, site: Site)
    requires Inv(w) && w.phase.Idle? && w.inFlight == {}
    requires w.JournalRevision() <= I64_MAX
    ensures AppliedExactly(ReconcileOnce(w, site)) <==> UpToDate(w) || Reconcilable(w, site)
    ensures ReconcileOnce(w, site).content == w.content
    ensures ReconcileOnce(w, site).inFlight == {} && ReconcileOnce(w, site).phase.Idle?
  {
    var read := Do(Do(w, Begin), ReadStatus);
    if UpToDate(w) {
      assert Enabled(read, Confirm);
    } else if Enabled(read, Send) {
      SendCompletes(w, site);
    } else if Reconcilable(w, site) {
      SameAtAnyRevision(w.content, 0, Max(w.row.desiredRevision, w.JournalRevision()) + 1);
      assert false;
    }
  }

  lemma {:induction false} SendCompletes(w: World, site: Site)
    requires Inv(w) && w.phase.Idle? && w.inFlight == {} && w.JournalRevision() <= I64_MAX
    requires !UpToDate(w) && Enabled(Do(Do(w, Begin), ReadStatus), Send)
    ensures AppliedExactly(ReconcileOnce(w, site)) <==> Reconcilable(w, site)
    ensures ReconcileOnce(w, site).content == w.content
    ensures ReconcileOnce(w, site).inFlight == {} && ReconcileOnce(w, site).phase.Idle?
  {
    var n := Max(w.row.desiredRevision, w.JournalRevision()) + 1;
    ReadThenSend(w);
    SameAtAnyRevision(w.content, n, 0);
    DeliveryDecides(w, site, n);
  }

  /** The agent's answer to the request that a reconcile at rest sends. */
  lemma {:induction false} DeliveryDecides(w: World, site: Site, n: U64)
    requires Inv(w) && w.phase.Idle? && w.inFlight == {}
    requires n == Max(w.row.desiredRevision, w.JournalRevision()) + 1 <= I64_MAX
    requires WellFormed(Candidate(w.content, n)) && WellFormed(Candidate(w.content, 0))
    ensures var sent := Sent(w, w.content, n);
            var q := sent.phase.request;
            var able := CanServe(site, q.state);
            var delivered := Do(sent, Deliver(q, able));
            && delivered.inFlight == {} && delivered.content == w.content
            && (able && Accepts(sent, q.state) <==> Reconcilable(w, site))
            && (able && Accepts(sent, q.state) ==> delivered.Journal() == Some(q.state) && Enabled(delivered, CommitApplied))
            && (!(able && Accepts(sent, q.state)) ==> delivered.log == w.log && delivered.phase == sent.phase)
  {
    SameAtAnyRevision(w.content, 0, n);
    var sent := Sent(w, w.content, n);
    assert sent.inFlight == {sent.phase.request};
  }

  ghost function ReconcileTimes(w: World, site: Site, n: nat): World
    requires w.phase.Idle?
    decreases n
  {
    if n == 0 then w
    else var v := ReconcileOnce(w, site); if v.phase.Idle? then ReconcileTimes(v, site, n - 1) else v
  }

  /** Once exact, reconciling unchanged content is a no-op, however often it runs: no
      request is sent, no revision is spent, the row is not rewritten. */
  lemma {:induction false} ReconcileIsIdempotent(w: World, site: Site, n: nat)
    requires Inv(w) && w.phase.Idle? && AppliedExactly(w) && w.JournalRevision() <= I64_MAX
    ensures ReconcileTimes(w, site, n) == w
  {
    if n > 0 {
      assert ReconcileOnce(w, site) == w;
      ReconcileIsIdempotent(w, site, n - 1);
    }
  }
}
