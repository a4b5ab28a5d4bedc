/**
 `InvocationService::execute_effect` (crates/kiteframe-provider/src/invocation.rs) as a method over the
 in-memory store and a ledger. Its run is a run of the step system of EffectProtocol, one step per store
 call, ledger append and execution, so the theorems of EffectSafety speak about it.
 */
module EffectService {
  import opened Outcomes
  import opened Text
  import opened Contract
  import opened InvocationRecords
  import opened InvocationAnswers
  import opened InvocationStores
  import opened EffectProtocol
  import opened EffectSafety

  /** What the caller of `execute_effect` sees. */
  datatype EffectAnswer =
    | DeferredAnswer
    | ErrorAnswer
    | SucceededAnswer(result: string)
    | FailedAnswer(error: string)
    | OutcomeUnknownAnswer

  function ShownState(state: Prepared): EffectAnswer {
    if state.Succeeded? then SucceededAnswer(state.result)
    else if state.Failed? then FailedAnswer(state.error)
    else OutcomeUnknownAnswer
  }

  function Shown(answer: Answer): EffectAnswer {
    match answer
    case Deferred => DeferredAnswer
    case UnknownExisting(_, _) => OutcomeUnknownAnswer
    case Unknown(_, _, _, _) => OutcomeUnknownAnswer
    case Settled(state, _, _, _, _) => ShownState(state)
    case _ => ErrorAnswer
  }

  /** What the clock, the ledger and the operation do during one call; None is an append that fails. */
  datatype Surroundings = Surroundings(
    reservedAt: Timestamp,
    retentionUntil: Timestamp,
    authorization: Option<string>,
    claimedAt: Timestamp,
    prepared: Prepared,
    outcome: Option<string>,
    settledAt: Timestamp,
    givenUpAt: Timestamp)

  ghost predicate FreshIds(w: World, around: Surroundings) {
    && (around.authorization.Some? ==> FreshId(w, around.authorization.value))
    && (around.outcome.Some? ==> FreshId(w, around.outcome.value))
    && (around.authorization.Some? ==> around.authorization != around.outcome)
  }

  // ---------------------------------------------------------------- one record, uninterrupted

  /** The record with this ID. */
  ghost predicate Owned(records: Records, invocationId: string, stored: StoredInvocation) {
    exists key :: key in records && records[key] == stored && stored.invocationId == invocationId
  }

  /** Only the record with this ID may have changed. */
  ghost predicate OthersKept(before: Records, after: Records, invocationId: string) {
    forall key | key in before && before[key].invocationId != invocationId :: key in after && after[key] == before[key]
  }

  lemma OwnedMoves(records: Records, invocationId: string, stored: StoredInvocation, t: InvocationTransition, now: Timestamp)
    requires UniqueIds(records) && Owned(records, invocationId, stored)
    ensures
      var (after, reply) := Transit(Memory, records, invocationId, t, now);
      if MayMove(Memory, stored, t, now) then
        reply.Success? && Owned(after, invocationId, Moved(stored, t, now)) && OthersKept(records, after, invocationId)
      else reply.Failure? && after == records
  {
    hide Transit;
    var key :| key in records && records[key] == stored && stored.invocationId == invocationId;
    TransitExactly(Memory, records, invocationId, t, now);
    if MayMove(Memory, stored, t, now) {
      assert records[key := Moved(stored, t, now)][key] == Moved(stored, t, now);
    }
  }

  lemma NobodyMoves(records: Records, invocationId: string, t: InvocationTransition, now: Timestamp)
    requires UniqueIds(records) && forall stored :: !(Owned(records, invocationId, stored) && MayMove(Memory, stored, t, now))
    ensures Transit(Memory, records, invocationId, t, now).1.Failure? && Transit(Memory, records, invocationId, t, now).0 == records
  {
    hide Transit;
    TransitExactly(Memory, records, invocationId, t, now);
    if key :| key in records && records[key].invocationId == invocationId {
      assert Owned(records, invocationId, records[key]);
    }
  }

  /** The record given up on: marked outcome-unknown, with its outcome entry if there is one, unless the clock moved back. */
  function GivenUpVersion(claimed: StoredInvocation, outcome: Option<string>, now: Timestamp): StoredInvocation {
    if now < claimed.updatedAt then claimed
    else
      claimed.(state := OutcomeUnknown, updatedAt := now,
               auditLinks := claimed.auditLinks + if outcome.Some? then [AuditLink(OutcomeLink, outcome.value, now)] else [])
  }

  /** What a waiting record looks like: it has no outcome yet. */
  predicate NoOutcomes(links: seq<AuditLink>) {
    forall i | 0 <= i < |links| :: links[i].kind.AuthorizationLink?
  }

  lemma WaitingHasNoOutcomes(stored: StoredInvocation)
    requires HistoryOk(Memory, stored) && Waiting(stored.state)
    ensures NoOutcomes(stored.auditLinks)
  {}

  /** The record that a call's claim would find ready: waiting as expected, not newer than the claim, and not yet linked to its entry. */
  predicate Claimable(stored: StoredInvocation, expected: State, around: Surroundings) {
    && around.authorization.Some?
    && stored.state == expected && stored.updatedAt <= around.claimedAt
    && forall i | 0 <= i < |stored.auditLinks| && stored.auditLinks[i].kind.AuthorizationLink? ::
         stored.auditLinks[i].recordId != around.authorization.value
  }

  /** The outcome was appended, and the clock has not moved back since the claim. */
  predicate Settles(around: Surroundings) {
    around.outcome.Some? && around.claimedAt <= around.settledAt
  }

  /** How an executed effect is answered, and the record it leaves. */
  ghost predicate AnsweredAs(around: Surroundings, claimed: StoredInvocation, records: Records, invocationId: string, answer: EffectAnswer) {
    if Settles(around) then
      && Owned(records, invocationId, SettledVersion(claimed, around.prepared, around.outcome.value, around.settledAt))
      && (match around.prepared
          case Succeeded(result) => answer == SucceededAnswer(result)
          case Failed(error) => answer == FailedAnswer(error)
          case _ => answer == OutcomeUnknownAnswer)
    else
      answer == OutcomeUnknownAnswer && Owned(records, invocationId, GivenUpVersion(claimed, around.outcome, around.givenUpAt))
  }

  /** Settling a claimed record succeeds exactly when the clock has not moved back since the claim. */
  lemma SettleAnswers(records: Records, invocationId: string, claimed: StoredInvocation, prepared: Prepared, outcome: string, now: Timestamp)
    requires UniqueIds(records) && Owned(records, invocationId, claimed) && !Blank(outcome)
    requires claimed.state.Pending? && NoOutcomes(claimed.auditLinks)
    ensures
      var (after, reply) := Transit(Memory, records, invocationId, Transition(Pending, prepared, Outcome(outcome)), now);
      if claimed.updatedAt <= now then reply.Success? && Owned(after, invocationId, SettledVersion(claimed, prepared, outcome, now))
      else reply.Failure? && after == records
  {
    hide Transit, Owned;
    OwnedMoves(records, invocationId, claimed, Transition(Pending, prepared, Outcome(outcome)), now);
  }

  lemma GiveUpAnswers(records: Records, invocationId: string, claimed: StoredInvocation, audit: TransitionAudit, now: Timestamp)
    requires UniqueIds(records) && Owned(records, invocationId, claimed)
    requires audit.NoAudit? || (audit.Outcome? && !Blank(audit.recordId))
    requires claimed.state.Pending? && NoOutcomes(claimed.auditLinks)
    ensures
      var after := Transit(Memory, records, invocationId, Transition(Pending, OutcomeUnknown, audit), now).0;
      Owned(after, invocationId, GivenUpVersion(claimed, if audit.Outcome? then Some(audit.recordId) else None, now))
  {
    hide Transit, Owned;
    assert claimed.auditLinks + [] == claimed.auditLinks;
    OwnedMoves(records, invocationId, claimed, Transition(Pending, OutcomeUnknown, audit), now);
  }

  /** From a reservation that may proceed, with its record in this table: whether the effect ran, the answer, and the table after it. */
  ghost predicate RunsAs(before: Records, after: Records, invocationId: string, expected: State, around: Surroundings, answer: EffectAnswer, ran: bool) {
    && (forall stored | Owned(before, invocationId, stored) ::
          if Claimable(stored, expected, around) then
            ran && AnsweredAs(around, ClaimedVersion(stored, around.authorization.value, around.claimedAt), after, invocationId, answer)
          else !ran && answer == ErrorAnswer && after == before)
    && ((forall stored :: !Owned(before, invocationId, stored)) ==> !ran && answer == ErrorAnswer && after == before)
  }

  lemma NothingClaimable(records: Records, invocationId: string, expected: State, around: Surroundings)
    ensures around.authorization.None? ==> RunsAs(records, records, invocationId, expected, around, ErrorAnswer, false)
  {}

  /** A claim succeeds exactly when the record of the ID is claimable, and leaves it claimed. */
  lemma ClaimAnswers(records: Records, invocationId: string, expected: State, around: Surroundings) returns (found: Option<StoredInvocation>)
    requires StoreInv(Memory, records) && Waiting(expected) && around.authorization.Some? && !Blank(around.authorization.value)
    ensures
      var (after, reply) := Transit(Memory, records, invocationId, ToPending(expected, around.authorization.value), around.claimedAt);
      if reply.Success? then
        && found.Some? && var claimed := found.value;
        && Owned(after, invocationId, claimed) && claimed.state.Pending? && NoOutcomes(claimed.auditLinks) && claimed.updatedAt == around.claimedAt
        && (exists stored :: Owned(records, invocationId, stored))
        && (forall stored | Owned(records, invocationId, stored) ::
              Claimable(stored, expected, around) && claimed == ClaimedVersion(stored, around.authorization.value, around.claimedAt))
      else after == records && forall stored | Owned(records, invocationId, stored) :: !Claimable(stored, expected, around)
  {
    var t: InvocationTransition := ToPending(expected, around.authorization.value);
    KeysAndIds(records);
    forall stored | Owned(records, invocationId, stored)
      ensures Claimable(stored, expected, around) <==> MayMove(Memory, stored, t, around.claimedAt)
      ensures MayMove(Memory, stored, t, around.claimedAt) ==> NoOutcomes(Moved(stored, t, around.claimedAt).auditLinks)
    {
      var key :| key in records && records[key] == stored;
      assert HistoryOk(Memory, records[key]);
      if Waiting(stored.state) {
        WaitingHasNoOutcomes(stored);
      }
    }
    hide StoreInv, Transit, MayMove, Claimable, NoOutcomes;
    if stored :| Owned(records, invocationId, stored) && MayMove(Memory, stored, t, around.claimedAt) {
      OwnedMoves(records, invocationId, stored, t, around.claimedAt);
      OwnedIsOnly(records, invocationId, stored);
      found := Some(Moved(stored, t, around.claimedAt));
    } else {
      found := None;
      NobodyMoves(records, invocationId, t, around.claimedAt);
    }
  }

  lemma ClaimedRuns(before: Records, after: Records, invocationId: string, expected: State, around: Surroundings, answer: EffectAnswer, claimed: StoredInvocation)
    requires around.authorization.Some? && AnsweredAs(around, claimed, after, invocationId, answer)
    requires exists stored :: Owned(before, invocationId, stored)
    requires forall stored | Owned(before, invocationId, stored) ::
               Claimable(stored, expected, around) && claimed == ClaimedVersion(stored, around.authorization.value, around.claimedAt)
    ensures RunsAs(before, after, invocationId, expected, around, answer, true)
  {
    hide Owned, AnsweredAs, Claimable, ClaimedVersion;
  }

  lemma UnclaimedFails(records: Records, invocationId: string, expected: State, around: Surroundings)
    requires forall stored | Owned(records, invocationId, stored) :: !Claimable(stored, expected, around)
    ensures RunsAs(records, records, invocationId, expected, around, ErrorAnswer, false)
  {
    hide Owned, AnsweredAs, Claimable, ClaimedVersion;
  }

  /** A whole call of `execute_effect`, from what the reservation found. */
  ghost predicate CallsAs(before: Records, after: Records, job: Job, around: Surroundings, answer: EffectAnswer, ran: bool)
    requires job.kind.Run?
  {
    var (reserved, reply) := Reserve(Memory, before, job.input, job.descriptor, around.reservedAt, around.retentionUntil);
    if reply.Failure? then !ran && answer == ErrorAnswer && after == reserved
    else
      var state := reply.value.stored.state;
      if reply.value.kind.Existing? && !(job.kind.resumed && state.Suspended?) then
        !ran && after == reserved && answer == (if state.OutcomeUnknown? then OutcomeUnknownAnswer else DeferredAnswer)
      else RunsAs(reserved, after, job.input.invocationId, state, around, answer, ran)
  }

  /** A whole call of `persist_suspension`. */
  ghost predicate SuspendsAs(before: Records, after: Records, job: Job, around: Surroundings, stored: bool)
    requires job.kind.Suspend?
  {
    var suspended := Suspended(job.kind.suspension);
    var (reserved, reply) := Reserve(Memory, before, job.input, job.descriptor, around.reservedAt, around.retentionUntil);
    if reply.Failure? || (reply.value.stored.state != suspended && !reply.value.stored.state.Reserved?) then !stored && after == reserved
    else if reply.value.stored.state == suspended then stored && after == reserved
    else
      && (forall record | Owned(reserved, job.input.invocationId, record) ::
            if record.state.Reserved? && record.updatedAt <= around.settledAt then
              && stored && Owned(after, job.input.invocationId, record.(state := suspended, updatedAt := around.settledAt))
              && OthersKept(reserved, after, job.input.invocationId)
            else !stored && after == reserved)
      && ((forall record :: !Owned(reserved, job.input.invocationId, record)) ==> !stored && after == reserved)
  }

  /** The caller is told Succeeded or Failed exactly as the operation ended, and the record of the ID is stored so. */
  ghost predicate TruthfullyAnswered(records: Records, invocationId: string, around: Surroundings, answer: EffectAnswer) {
    && (answer.SucceededAnswer? ==>
          && around.prepared == Succeeded(answer.result)
          && (exists key :: key in records && records[key].invocationId == invocationId)
          && forall key | key in records && records[key].invocationId == invocationId :: records[key].state == Succeeded(answer.result))
    && (answer.FailedAnswer? ==>
          && around.prepared == Failed(answer.error)
          && (exists key :: key in records && records[key].invocationId == invocationId)
          && forall key | key in records && records[key].invocationId == invocationId :: records[key].state == Failed(answer.error))
  }

  lemma OwnedIsOnly(records: Records, invocationId: string, stored: StoredInvocation)
    requires UniqueIds(records) && Owned(records, invocationId, stored)
    ensures forall key | key in records && records[key].invocationId == invocationId :: records[key] == stored
    ensures exists key :: key in records && records[key].invocationId == invocationId
  {}

  lemma AnswersAreTruthful(around: Surroundings, claimed: StoredInvocation, records: Records, invocationId: string, answer: EffectAnswer)
    requires UniqueIds(records) && AnsweredAs(around, claimed, records, invocationId, answer)
    ensures TruthfullyAnswered(records, invocationId, around, answer)
  {
    if Settles(around) {
      OwnedIsOnly(records, invocationId, SettledVersion(claimed, around.prepared, around.outcome.value, around.settledAt));
    }
  }

  lemma RunsAreTruthful(before: Records, after: Records, invocationId: string, expected: State, around: Surroundings, answer: EffectAnswer, ran: bool)
    requires UniqueIds(after) && RunsAs(before, after, invocationId, expected, around, answer, ran)
    ensures TruthfullyAnswered(after, invocationId, around, answer)
    ensures answer.SucceededAnswer? || answer.FailedAnswer? ==> ran
  {
    hide Owned, AnsweredAs, TruthfullyAnswered;
    if stored :| Owned(before, invocationId, stored) {
      if Claimable(stored, expected, around) {
        AnswersAreTruthful(around, ClaimedVersion(stored, around.authorization.value, around.claimedAt), after, invocationId, answer);
      } else {
        NothingToAnswer(after, invocationId, around);
      }
    } else {
      NothingToAnswer(after, invocationId, around);
    }
  }

  lemma NothingToAnswer(records: Records, invocationId: string, around: Surroundings)
    ensures TruthfullyAnswered(records, invocationId, around, ErrorAnswer)
    ensures TruthfullyAnswered(records, invocationId, around, DeferredAnswer)
    ensures TruthfullyAnswered(records, invocationId, around, OutcomeUnknownAnswer)
  {}

  lemma NewIsReserved(records: Records, job: Job, around: Surroundings)
    ensures
      var reply := Reserve(Memory, records, job.input, job.descriptor, around.reservedAt, around.retentionUntil).1;
      reply.Success? && reply.value.kind.NewlyReserved? ==> reply.value.stored.state == Reserved
  {
    hide ScopeIsFenced, IdTaken, StatusIdTaken, ValidInput;
  }

  lemma CallsAreTruthful(before: Records, after: Records, job: Job, around: Surroundings, answer: EffectAnswer, ran: bool)
    requires UniqueIds(after) && job.kind.Run? && CallsAs(before, after, job, around, answer, ran)
    ensures TruthfullyAnswered(after, job.input.invocationId, around, answer)
    ensures answer.SucceededAnswer? || answer.FailedAnswer? ==> ran
  {
    hide Reserve, RunsAs, TruthfullyAnswered;
    NothingToAnswer(after, job.input.invocationId, around);
    var (reserved, reply) := Reserve(Memory, before, job.input, job.descriptor, around.reservedAt, around.retentionUntil);
    if reply.Success? {
      var state := reply.value.stored.state;
      if !(reply.value.kind.Existing? && !(job.kind.resumed && state.Suspended?)) {
        RunsAreTruthful(reserved, after, job.input.invocationId, state, around, answer, ran);
      }
    }
  }

  /**
   Where a stored suspension is. The record of the key holds it exactly when that record has the request's ID or
   held it before; a record found under another ID for the same key, context and digest is not the one suspended.
   */
  ghost predicate SuspensionIsStored(before: Records, after: Records, job: Job)
    requires job.kind.Suspend?
  {
    var key, suspended := job.input.key, Suspended(job.kind.suspension);
    && key in after
    && (after[key].state == suspended <==> after[key].invocationId == job.input.invocationId || (key in before && before[key].state == suspended))
    && (after[key].state != suspended ==> exists other :: other in after && after[other].invocationId == job.input.invocationId && after[other].state == suspended)
  }

  lemma ReservedRecord(before: Records, job: Job, around: Surroundings)
    requires Reserve(Memory, before, job.input, job.descriptor, around.reservedAt, around.retentionUntil).1.Success?
    ensures
      var (reserved, reply) := Reserve(Memory, before, job.input, job.descriptor, around.reservedAt, around.retentionUntil);
      var key, stored := job.input.key, reply.value.stored;
      && key in reserved && reserved[key] == stored
      && (if reply.value.kind.NewlyReserved? then stored.state.Reserved? && stored.invocationId == job.input.invocationId
          else key in before && before[key] == stored)
  {
    hide ScopeIsFenced, IdTaken, StatusIdTaken, ValidInput;
  }

  lemma StoredSuspensionsAre(before: Records, after: Records, job: Job, around: Surroundings)
    requires job.kind.Suspend? && SuspendsAs(before, after, job, around, true)
    requires StoreInv(Memory, after)
    requires StoreInv(Memory, Reserve(Memory, before, job.input, job.descriptor, around.reservedAt, around.retentionUntil).0)
    ensures SuspensionIsStored(before, after, job)
  {
    var (reserved, reply) := Reserve(Memory, before, job.input, job.descriptor, around.reservedAt, around.retentionUntil);
    var id, suspended := job.input.invocationId, Suspended(job.kind.suspension);
    ReservedRecord(before, job, around);
    KeysAndIds(after);
    KeysAndIds(reserved);
    hide Reserve, StoreInv;
    if reply.value.stored.state != suspended {
      var record :| Owned(reserved, id, record);
      SuspendedWhere(before, reserved, after, job, record, record.(state := suspended, updatedAt := around.settledAt));
    }
  }

  /** Suspending succeeds exactly when the record of the ID is Reserved and the clock has not moved back. */
  lemma SuspensionAnswers(records: Records, job: Job, around: Surroundings)
    requires UniqueIds(records) && job.kind.Suspend?
    ensures
      var id := job.input.invocationId;
      var t: InvocationTransition := Transition(Reserved, Suspended(job.kind.suspension), NoAudit);
      var (after, reply) := Transit(Memory, records, id, t, around.settledAt);
      && (forall record | Owned(records, id, record) ::
            if record.state.Reserved? && record.updatedAt <= around.settledAt then
              && reply.Success? && OthersKept(records, after, id)
              && Owned(after, id, record.(state := Suspended(job.kind.suspension), updatedAt := around.settledAt))
            else reply.Failure? && after == records)
      && ((forall record :: !Owned(records, id, record)) ==> reply.Failure? && after == records)
  {
    hide Transit;
    var id := job.input.invocationId;
    var t: InvocationTransition := Transition(Reserved, Suspended(job.kind.suspension), NoAudit);
    if record :| Owned(records, id, record) {
      OwnedMoves(records, id, record, t, around.settledAt);
      OwnedIsOnly(records, id, record);
    } else {
      NobodyMoves(records, id, t, around.settledAt);
    }
  }

  lemma KeysAndIds(records: Records)
    requires StoreInv(Memory, records)
    ensures KeysMatch(records) && UniqueIds(records)
  {}

  lemma SuspendedWhere(before: Records, reserved: Records, after: Records, job: Job, record: StoredInvocation, moved: StoredInvocation)
    requires job.kind.Suspend?
    requires KeysMatch(reserved) && UniqueIds(reserved) && KeysMatch(after) && UniqueIds(after)
    requires
      var key, id := job.input.key, job.input.invocationId;
      && key in reserved && reserved[key].state.Reserved?
      && (reserved[key].invocationId == id || (key in before && before[key] == reserved[key]))
      && Owned(reserved, id, record) && Owned(after, id, moved) && OthersKept(reserved, after, id)
      && moved == record.(state := Suspended(job.kind.suspension), updatedAt := moved.updatedAt)
    ensures SuspensionIsStored(before, after, job)
  {
    var key, id := job.input.key, job.input.invocationId;
    OwnedIsOnly(reserved, id, record);
    OwnedIsOnly(after, id, moved);
    var other :| other in after && after[other] == moved;
    if reserved[key].invocationId == id {
      assert other == key;
    }
  }

  class EffectService {
    const store: InMemoryInvocationStore
    var ledger: map<string, LedgerEntry>
    var executions: seq<string>
    ghost var world: World

    ghost predicate Valid()
      reads this, store
    {
      && store.Valid()
      && WorldInv(Memory, world)
      && world.records == store.records
      && world.ledger == ledger
      && |world.log| == |executions|
    }

    constructor ()
      ensures Valid() && fresh(store) && world == Initial()
    {
      store := new InMemoryInvocationStore();
      ledger := map[];
      executions := [];
      world := Initial();
    }

    lemma IdsOf()
      requires Valid()
      ensures UniqueIds(store.records) && StoreInv(Memory, store.records)
    {}

    ghost predicate TaskAt(task: nat, job: Job, pc: Pc)
      reads this
    {
      At(world, task) && world.tasks[task] == Task(job, pc)
    }

    method CallReserveOrGet(ghost task: nat, job: Job, now: Timestamp, retentionUntil: Timestamp) returns (r: Result<Reservation, StoreError>)
      requires Valid() && TaskAt(task, job, Idle)
      modifies this, store
      ensures Valid() && world == Next(Memory, old(world), ReserveStep(task, now, retentionUntil, Delivered))
      ensures (store.records, r) == Reserve(Memory, old(store.records), job.input, job.descriptor, now, retentionUntil)
      ensures ledger == old(ledger) && executions == old(executions)
    {
      hide WorldInv, StoreInv, Reserve;
      NextKeepsInv(Memory, world, ReserveStep(task, now, retentionUntil, Delivered));
      ReservingRecords(world, task, now, retentionUntil);
      world := Next(Memory, world, ReserveStep(task, now, retentionUntil, Delivered));
      r := store.ReserveOrGet(job.input, job.descriptor, now, retentionUntil);
    }

    method AppendToLedger(ghost task: nat, ghost step: Step, recordId: Option<string>, entry: LedgerEntry)
      requires Valid() && (step.AppendAuthorization? || step.AppendOutcome?) && step.task == task && At(world, task)
      requires step.AppendAuthorization? ==> world.tasks[task].pc.Authorizing? && entry == AuthorizationEntry
      requires step.AppendOutcome? ==> world.tasks[task].pc.Executed? && entry == OutcomeEntry(world.tasks[task].pc.authorization)
      requires FreshId(world, step.recordId)
      requires if recordId.Some? then step.fate.Delivered? && step.recordId == recordId.value else step.fate.NotApplied?
      modifies this
      ensures Valid() && world == Next(Memory, old(world), step)
      ensures ledger == if recordId.Some? then old(ledger)[recordId.value := entry] else old(ledger)
      ensures executions == old(executions)
    {
      hide WorldInv, StoreInv;
      NextKeepsInv(Memory, world, step);
      world := Next(Memory, world, step);
      if recordId.Some? {
        ledger := ledger[recordId.value := entry];
      }
    }

    method CallTransition(ghost task: nat, ghost step: Step, id: string, t: InvocationTransition, now: Timestamp) returns (r: Result<(), StoreError>)
      requires Valid() && At(world, task) && IsTransitionOf(world, task, step, id, t, now)
      modifies this, store
      ensures Valid() && world == Next(Memory, old(world), step)
      ensures (store.records, r) == Transit(Memory, old(store.records), id, t, now)
      ensures ledger == old(ledger) && executions == old(executions)
    {
      hide WorldInv, StoreInv, Transit;
      NextKeepsInv(Memory, world, step);
      TransitionRecords(world, task, step, id, t, now);
      world := Next(Memory, world, step);
      r := store.Transition(id, t, now);
    }

    /**
     The operation's `execute`. What it returns is the surroundings' choice; that it ran is recorded.
     */
    method Run(ghost task: nat, job: Job, prepared: Prepared)
      requires Valid() && At(world, task) && world.tasks[task].pc.Executing?
      modifies this
      ensures Valid() && world == Next(Memory, old(world), Execute(task, prepared))
      ensures ledger == old(ledger) && executions == old(executions) + [job.input.invocationId]
    {
      hide WorldInv, StoreInv;
      NextKeepsInv(Memory, world, Execute(task, prepared));
      world := Next(Memory, world, Execute(task, prepared));
      executions := executions + [job.input.invocationId];
    }

    /** An uncertain effect: the record is marked as such if it still can be, whatever the store answers. */
    method GiveUpOn(ghost task: nat, job: Job, audit: TransitionAudit, now: Timestamp, ghost claimed: StoredInvocation) returns (ghost steps: seq<Step>)
      requires Valid() && At(world, task) && world.tasks[task].job == job
      requires
        var pc := world.tasks[task].pc;
        (pc.AuditFailed? && audit == NoAudit) || (pc.SettleFailed? && audit == Outcome(pc.outcome) && !Blank(pc.outcome))
      requires Owned(store.records, job.input.invocationId, claimed) && claimed.state.Pending? && NoOutcomes(claimed.auditLinks)
      modifies this, store
      ensures Valid() && world == Replay(Memory, old(world), steps) && ServiceRun(steps)
      ensures At(world, task) && world.tasks[task].pc.Done? && Shown(world.tasks[task].pc.answer) == OutcomeUnknownAnswer
      ensures executions == old(executions)
      ensures Owned(store.records, job.input.invocationId,
                    GivenUpVersion(claimed, if audit.Outcome? then Some(audit.recordId) else None, now))
    {
      hide WorldInv, StoreInv, UniqueIds, Transit, Owned, GivenUpVersion, NoOutcomes, Next, Shown;
      IdsOf();
      GiveUpAnswers(store.records, job.input.invocationId, claimed, audit, now);
      GiveUpLeads(world, task, now);
      ghost var giveUp := GiveUp(task, now, Delivered);
      steps := [giveUp];
      ReplaySingle(Memory, world, giveUp);
      var _ := CallTransition(task, giveUp, job.input.invocationId, Transition(Pending, OutcomeUnknown, audit), now);
    }

    method SettleWith(ghost task: nat, job: Job, outcome: string, around: Surroundings, ghost claimed: StoredInvocation) returns (answer: EffectAnswer, ghost steps: seq<Step>)
      requires Valid() && At(world, task) && world.tasks[task].job == job && !Blank(outcome)
      requires
        var pc := world.tasks[task].pc;
        pc.Settling? && pc.prepared == around.prepared && pc.outcome == outcome && around.outcome == Some(outcome)
      requires Owned(store.records, job.input.invocationId, claimed) && claimed.state.Pending? && NoOutcomes(claimed.auditLinks)
      requires claimed.updatedAt == around.claimedAt
      modifies this, store
      ensures Valid() && world == Replay(Memory, old(world), steps) && ServiceRun(steps)
      ensures At(world, task) && world.tasks[task].pc.Done? && answer == Shown(world.tasks[task].pc.answer)
      ensures executions == old(executions)
      ensures AnsweredAs(around, claimed, store.records, job.input.invocationId, answer)
    {
      hide WorldInv, StoreInv, UniqueIds, Transit, Owned, SettledVersion, GivenUpVersion, NoOutcomes, Next, Shown;
      IdsOf();
      SettleAnswers(store.records, job.input.invocationId, claimed, around.prepared, outcome, around.settledAt);
      ghost var start := world;
      var t := Transition(Pending, around.prepared, Outcome(outcome));
      ghost var settle := SettleStep(task, around.settledAt, Delivered);
      ReplaySingle(Memory, start, settle);
      SettleLeads(world, task, t, around.settledAt);
      var r := CallTransition(task, settle, job.input.invocationId, t, around.settledAt);
      if r.Success? {
        answer, steps := ShownState(around.prepared), [settle];
      } else {
        answer := OutcomeUnknownAnswer;
        ghost var more := GiveUpOn(task, job, Outcome(outcome), around.givenUpAt, claimed);
        ReplayMore(Memory, start, [settle], more);
        steps := [settle] + more;
      }
    }

    /** What follows the execution: append the outcome, then settle or give up. */
    method RecordOutcome(ghost task: nat, job: Job, authorization: string, around: Surroundings, ghost claimed: StoredInvocation) returns (answer: EffectAnswer, ghost steps: seq<Step>)
      requires Valid() && At(world, task) && world.tasks[task].job == job
      requires
        var pc := world.tasks[task].pc;
        pc.Executed? && pc.authorization == authorization && pc.prepared == around.prepared
      requires around.outcome.Some? ==> FreshId(world, around.outcome.value)
      requires Owned(store.records, job.input.invocationId, claimed) && claimed.state.Pending? && NoOutcomes(claimed.auditLinks)
      requires claimed.updatedAt == around.claimedAt
      modifies this, store
      ensures Valid() && world == Replay(Memory, old(world), steps) && ServiceRun(steps)
      ensures At(world, task) && world.tasks[task].pc.Done? && answer == Shown(world.tasks[task].pc.answer)
      ensures executions == old(executions)
      ensures AnsweredAs(around, claimed, store.records, job.input.invocationId, answer)
    {
      hide WorldInv, StoreInv, Owned, GivenUpVersion, SettledVersion, NoOutcomes, Next, Shown;
      ghost var start := world;
      ghost var append := if around.outcome.Some? then AppendOutcome(task, around.outcome.value, Delivered)
                          else AppendOutcome(task, UnusedId(world), NotApplied);
      ReplaySingle(Memory, start, append);
      AppendLeads(world, task, append);
      AppendToLedger(task, append, around.outcome, OutcomeEntry(authorization));
      ghost var more;
      if around.outcome.Some? {
        answer, more := SettleWith(task, job, around.outcome.value, around, claimed);
      } else {
        answer := OutcomeUnknownAnswer;
        more := GiveUpOn(task, job, NoAudit, around.givenUpAt, claimed);
      }
      ReplayMore(Memory, start, [append], more);
      steps := [append] + more;
    }

    /** What follows a reservation that may proceed: write the authorization ahead, claim the record, execute. */
    method AuthorizeAndRun(ghost task: nat, job: Job, expected: State, around: Surroundings) returns (answer: EffectAnswer, ghost steps: seq<Step>)
      requires Valid() && TaskAt(task, job, Authorizing(expected)) && Waiting(expected) && FreshIds(world, around)
      modifies this, store
      ensures Valid() && world == Replay(Memory, old(world), steps) && ServiceRun(steps)
      ensures At(world, task) && world.tasks[task].pc.Done? && answer == Shown(world.tasks[task].pc.answer)
      ensures executions == old(executions) || executions == old(executions) + [job.input.invocationId]
      ensures RunsAs(old(store.records), store.records, job.input.invocationId, expected, around, answer, executions != old(executions))
    {
      hide WorldInv, StoreInv, UniqueIds, Transit, Owned, AnsweredAs, Claimable, NoOutcomes, ClaimedVersion, RunsAs, Next, Replay;
      IdsOf();
      ghost var before := store.records;
      NothingClaimable(before, job.input.invocationId, expected, around);
      ghost var start := world;
      ghost var append := if around.authorization.Some? then AppendAuthorization(task, around.authorization.value, Delivered)
                          else AppendAuthorization(task, UnusedId(world), NotApplied);
      ReplaySingle(Memory, start, append);
      AppendLeads(world, task, append);
      AppendToLedger(task, append, around.authorization, AuthorizationEntry);
      if around.authorization.None? {
        return ErrorAnswer, [append];
      }
      var t := ToPending(expected, around.authorization.value);
      ghost var claim := ClaimStep(task, around.claimedAt, Delivered);
      ReplayMore(Memory, start, [append], [claim]);
      ReplaySingle(Memory, world, claim);
      ClaimLeads(world, task, t, around.claimedAt);
      ghost var found := ClaimAnswers(before, job.input.invocationId, expected, around);
      var won := CallTransition(task, claim, job.input.invocationId, t, around.claimedAt);
      steps := [append] + [claim];
      if won.Failure? {
        UnclaimedFails(before, job.input.invocationId, expected, around);
        return ErrorAnswer, steps;
      }
      ghost var run := Execute(task, around.prepared);
      ReplayMore(Memory, start, steps, [run]);
      ReplaySingle(Memory, world, run);
      RunLeads(world, task, around.prepared);
      Run(task, job, around.prepared);
      steps := steps + [run];
      ghost var more;
      answer, more := RecordOutcome(task, job, around.authorization.value, around, found.value);
      ClaimedRuns(before, store.records, job.input.invocationId, expected, around, answer, found.value);
      ReplayMore(Memory, start, steps, more);
      steps := steps + more;
    }

    /**
     `execute_effect`, run without interruption. The ledger gives every entry a new ID; the rest of the
     surroundings is arbitrary.
     */
    method ExecuteEffect(ghost task: nat, job: Job, around: Surroundings) returns (answer: EffectAnswer, ghost steps: seq<Step>)
      requires Valid() && !At(world, task) && job.kind.Run? && FreshIds(world, around)
      modifies this, store
      ensures Valid() && world == Replay(Memory, old(world), steps) && ServiceRun(steps)
      ensures At(world, task) && world.tasks[task].pc.Done? && answer == Shown(world.tasks[task].pc.answer)
      ensures executions == old(executions) || executions == old(executions) + [job.input.invocationId]
      ensures CallsAs(old(store.records), store.records, job, around, answer, executions != old(executions))
      ensures TruthfullyAnswered(store.records, job.input.invocationId, around, answer)
      ensures answer.SucceededAnswer? || answer.FailedAnswer? ==> executions != old(executions)
    {
      hide WorldInv, StoreInv, Reserve, RunsAs, TruthfullyAnswered;
      ghost var start, before := world, store.records;
      ghost var spawn, reserve := Spawn(task, job), ReserveStep(task, around.reservedAt, around.retentionUntil, Delivered);
      NextKeepsInv(Memory, world, spawn);
      ReplaySingle(Memory, start, spawn);
      world := Next(Memory, world, spawn);
      ReplayMore(Memory, start, [spawn], [reserve]);
      ReplaySingle(Memory, world, reserve);
      ReserveLeads(world, task, around.reservedAt, around.retentionUntil);
      var reply := CallReserveOrGet(task, job, around.reservedAt, around.retentionUntil);
      steps := [spawn] + [reserve];
      NothingToAnswer(store.records, job.input.invocationId, around);
      if reply.Failure? {
        return ErrorAnswer, steps;
      }
      var state := reply.value.stored.state;
      var resuming := job.kind.resumed && state.Suspended?;
      if reply.value.kind.Existing? && !resuming {
        answer := if state.OutcomeUnknown? then OutcomeUnknownAnswer else DeferredAnswer;
        return;
      }
      ghost var more;
      NewIsReserved(before, job, around);
      answer, more := AuthorizeAndRun(task, job, if resuming then state else Reserved, around);
      IdsOf();
      CallsAreTruthful(before, store.records, job, around, answer, executions != old(executions));
      ReplayMore(Memory, start, steps, more);
      steps := steps + more;
    }

    /** `persist_suspension`: reserve, then suspend the record unless it already is suspended in the same way. */
    method PersistSuspension(ghost task: nat, job: Job, around: Surroundings) returns (stored: bool, ghost steps: seq<Step>)
      requires Valid() && !At(world, task) && job.kind.Suspend?
      modifies this, store
      ensures Valid() && world == Replay(Memory, old(world), steps) && ServiceRun(steps)
      ensures At(world, task) && world.tasks[task].pc == Done(if stored then SuspensionStored else Refused)
      ensures executions == old(executions) && ledger == old(ledger)
      ensures SuspendsAs(old(store.records), store.records, job, around, stored)
      ensures stored ==> SuspensionIsStored(old(store.records), store.records, job)
    {
      hide WorldInv, StoreInv, UniqueIds, Reserve, Transit, Owned, OthersKept, SuspensionIsStored;
      ghost var start, before := world, store.records;
      ghost var spawn, reserve := Spawn(task, job), ReserveStep(task, around.reservedAt, around.retentionUntil, Delivered);
      NextKeepsInv(Memory, world, spawn);
      ReplaySingle(Memory, start, spawn);
      world := Next(Memory, world, spawn);
      ReplayMore(Memory, start, [spawn], [reserve]);
      ReplaySingle(Memory, world, reserve);
      SuspendReserveLeads(world, task, around.reservedAt, around.retentionUntil);
      var reply := CallReserveOrGet(task, job, around.reservedAt, around.retentionUntil);
      steps := [spawn] + [reserve];
      IdsOf();
      ghost var reserved := store.records;
      if reply.Failure? {
        return false, steps;
      }
      var state := reply.value.stored.state;
      if state == Suspended(job.kind.suspension) {
        StoredSuspensionsAre(before, store.records, job, around);
        return true, steps;
      }
      if state != Reserved {
        return false, steps;
      }
      ghost var suspend := SuspendStep(task, around.settledAt, Delivered);
      ReplayMore(Memory, start, steps, [suspend]);
      ReplaySingle(Memory, world, suspend);
      var t: InvocationTransition := Transition(Reserved, Suspended(job.kind.suspension), NoAudit);
      SuspensionAnswers(reserved, job, around);
      SuspendLeads(world, task, around.settledAt);
      var r := CallTransition(task, suspend, job.input.invocationId, t, around.settledAt);
      steps := steps + [suspend];
      stored := r.Success?;
      IdsOf();
      if stored {
        StoredSuspensionsAre(before, store.records, job, around);
      }
    }
  }

  /** Some ID the ledger does not have; a failed append never shows it. */
  ghost function UnusedId(w: World): (recordId: string)
    ensures FreshId(w, recordId)
  {
    var recordId := seq(LongestOf(w.ledger.Keys) + 1, _ => 'a');
    assert !IsWhitespace(recordId[0]);
    recordId
  }

  ghost function LongestOf(ids: set<string>): (longest: nat)
    ensures forall id | id in ids :: |id| <= longest
  {
    if ids == {} then 0
    else
      var id :| id in ids;
      var rest := LongestOf(ids - {id});
      if |id| > rest then |id| else rest
  }

  /** Where a reservation leads, as the caller sees it. */
  lemma ReserveLeads(w: World, task: nat, now: Timestamp, retentionUntil: Timestamp)
    requires At(w, task) && w.tasks[task].pc.Idle? && w.tasks[task].job.kind.Run?
    ensures
      var job := w.tasks[task].job;
      var reply := Reserve(Memory, w.records, job.input, job.descriptor, now, retentionUntil).1;
      var after := Next(Memory, w, ReserveStep(task, now, retentionUntil, Delivered));
      && At(after, task) && after.tasks[task].job == job && after.ledger == w.ledger
      && if reply.Failure? then after.tasks[task].pc == Done(Refused)
         else
           var state := reply.value.stored.state;
           var resuming := job.kind.resumed && state.Suspended?;
           if reply.value.kind.Existing? && !resuming then
             after.tasks[task].pc.Done?
             && Shown(after.tasks[task].pc.answer) == if state.OutcomeUnknown? then OutcomeUnknownAnswer else DeferredAnswer
           else after.tasks[task].pc == Authorizing(if resuming then state else Reserved)
  {
    hide Reserve, Placed, Claimed, SettledBy, GivenUp, SuspendedBy, Recorded, Transit, Abandon, Reopen, Swapped;
    PlacedKeepsRest(w, w.tasks[task].job, now, retentionUntil);
  }

  lemma ReservingRecords(w: World, task: nat, now: Timestamp, retentionUntil: Timestamp)
    requires At(w, task) && w.tasks[task].pc.Idle?
    ensures
      var after := Next(Memory, w, ReserveStep(task, now, retentionUntil, Delivered));
      && after.records == Reserve(Memory, w.records, w.tasks[task].job.input, w.tasks[task].job.descriptor, now, retentionUntil).0
      && after.ledger == w.ledger && after.log == w.log
  {
    hide Reserve, AfterReserve, Claimed, SettledBy, GivenUp, SuspendedBy, Recorded, Transit, Abandon, Reopen, Swapped;
  }

  /** The protocol step in which a task makes this store call. */
  ghost predicate IsTransitionOf(w: World, task: nat, step: Step, id: string, t: InvocationTransition, now: Timestamp)
    requires At(w, task)
  {
    var pc := w.tasks[task].pc;
    && id == w.tasks[task].job.input.invocationId
    && match step
       case ClaimStep(other, at, fate) =>
         other == task && at == now && fate.Delivered? && pc.Claiming? && t == ToPending(pc.expected, pc.authorization)
       case SettleStep(other, at, fate) =>
         other == task && at == now && fate.Delivered? && pc.Settling? && t == Transition(Pending, pc.prepared, Outcome(pc.outcome))
       case SuspendStep(other, at, fate) =>
         && other == task && at == now && fate.Delivered? && pc.Suspending?
         && t == Transition(Reserved, Suspended(pc.suspension), NoAudit)
       case GiveUp(other, at, fate) =>
         && other == task && at == now && fate.Delivered? && (pc.AuditFailed? || pc.SettleFailed?)
         && t == Transition(Pending, OutcomeUnknown, if pc.AuditFailed? then NoAudit else Outcome(pc.outcome))
       case _ => false
  }

  lemma ClaimRecords(w: World, task: nat, now: Timestamp, t: InvocationTransition)
    requires At(w, task) && w.tasks[task].pc.Claiming? && t == ToPending(w.tasks[task].pc.expected, w.tasks[task].pc.authorization)
    ensures
      var after := Claimed(Memory, w, task, now, Delivered);
      && after.records == Transit(Memory, w.records, w.tasks[task].job.input.invocationId, t, now).0
      && after.ledger == w.ledger && after.log == w.log
  {
    hide Transit;
    var id := w.tasks[task].job.input.invocationId;
    if !Applied(Memory, w, id, t, now, Delivered) {
      TransitRefused(Memory, w.records, id, t, now);
    }
  }

  lemma SettleRecords(w: World, task: nat, now: Timestamp, t: InvocationTransition)
    requires At(w, task) && w.tasks[task].pc.Settling? && t == Transition(Pending, w.tasks[task].pc.prepared, Outcome(w.tasks[task].pc.outcome))
    ensures
      var after := SettledBy(Memory, w, task, now, Delivered);
      && after.records == Transit(Memory, w.records, w.tasks[task].job.input.invocationId, t, now).0
      && after.ledger == w.ledger && after.log == w.log
  {
    hide Transit;
    var id := w.tasks[task].job.input.invocationId;
    if !Applied(Memory, w, id, t, now, Delivered) {
      TransitRefused(Memory, w.records, id, t, now);
    }
  }

  lemma TransitionRecords(w: World, task: nat, step: Step, id: string, t: InvocationTransition, now: Timestamp)
    requires At(w, task) && IsTransitionOf(w, task, step, id, t, now)
    ensures
      var after := Next(Memory, w, step);
      after.records == Transit(Memory, w.records, id, t, now).0 && after.ledger == w.ledger && after.log == w.log
  {
    hide Transit, Reserve, Abandon, Reopen, Reserving, Recorded, Claimed, SettledBy, Holds;
    if step.ClaimStep? {
      ClaimRecords(w, task, now, t);
    } else if step.SettleStep? {
      SettleRecords(w, task, now, t);
    }
  }

  /** Where the reservation for a suspension leads. */
  lemma SuspendReserveLeads(w: World, task: nat, now: Timestamp, retentionUntil: Timestamp)
    requires At(w, task) && w.tasks[task].pc.Idle? && w.tasks[task].job.kind.Suspend?
    ensures
      var job := w.tasks[task].job;
      var reply := Reserve(Memory, w.records, job.input, job.descriptor, now, retentionUntil).1;
      var after := Next(Memory, w, ReserveStep(task, now, retentionUntil, Delivered));
      && At(after, task) && after.tasks[task].job == job && after.ledger == w.ledger
      && after.tasks[task].pc == if reply.Failure? then Done(Refused)
                                 else if reply.value.stored.state == Suspended(job.kind.suspension) then Done(SuspensionStored)
                                 else if reply.value.stored.state.Reserved? then Suspending(job.kind.suspension)
                                 else Done(Refused)
  {
    hide Reserve, Placed, Claimed, SettledBy, GivenUp, SuspendedBy, Recorded, Transit, Abandon, Reopen, Swapped;
    PlacedKeepsRest(w, w.tasks[task].job, now, retentionUntil);
  }

  lemma PlacedKeepsRest(w: World, job: Job, now: Timestamp, retentionUntil: Timestamp)
    ensures
      var placed := Placed(Memory, w, job, now, retentionUntil);
      placed.tasks == w.tasks && placed.ledger == w.ledger && placed.log == w.log
  {
    hide Reserve;
  }

  /** Where an append leads. */
  lemma AppendLeads(w: World, task: nat, step: Step)
    requires At(w, task) && (step.AppendAuthorization? || step.AppendOutcome?) && step.task == task && FreshId(w, step.recordId)
    requires step.AppendAuthorization? ==> w.tasks[task].pc.Authorizing?
    requires step.AppendOutcome? ==> w.tasks[task].pc.Executed?
    ensures
      var after, pc := Next(Memory, w, step), w.tasks[task].pc;
      && At(after, task) && after.tasks[task].job == w.tasks[task].job
      && after.tasks[task].pc ==
         (if step.AppendAuthorization? then (if step.fate.Delivered? then Claiming(pc.expected, step.recordId) else Done(Refused))
          else if step.fate.Delivered? then Settling(pc.key, pc.serial, pc.authorization, pc.prepared, step.recordId)
          else AuditFailed(pc.key, pc.serial, pc.authorization))
      && (forall id | FreshId(w, id) && id != step.recordId :: FreshId(after, id))
      && (step.fate.NotApplied? ==> after.ledger == w.ledger)
  {}

  /** Where an execution leads. */
  lemma RunLeads(w: World, task: nat, prepared: Prepared)
    requires At(w, task) && w.tasks[task].pc.Executing?
    ensures
      var after, pc := Next(Memory, w, Execute(task, prepared)), w.tasks[task].pc;
      && At(after, task) && after.tasks[task] == Task(w.tasks[task].job, Executed(pc.key, pc.serial, pc.authorization, prepared))
      && after.ledger == w.ledger
  {}

  /** Where giving up leads. */
  lemma GiveUpLeads(w: World, task: nat, now: Timestamp)
    requires At(w, task) && (w.tasks[task].pc.AuditFailed? || w.tasks[task].pc.SettleFailed?)
    ensures
      var after := Next(Memory, w, GiveUp(task, now, Delivered));
      && At(after, task) && after.tasks[task].job == w.tasks[task].job
      && after.tasks[task].pc.Done? && Shown(after.tasks[task].pc.answer) == OutcomeUnknownAnswer
  {
    hide Transit;
  }

  /** Where suspending leads. */
  lemma SuspendLeads(w: World, task: nat, now: Timestamp)
    requires At(w, task) && w.tasks[task].pc.Suspending?
    ensures
      var t: InvocationTransition := Transition(Reserved, Suspended(w.tasks[task].pc.suspension), NoAudit);
      var r := Transit(Memory, w.records, w.tasks[task].job.input.invocationId, t, now).1;
      var after := Next(Memory, w, SuspendStep(task, now, Delivered));
      && At(after, task) && after.tasks[task] == Task(w.tasks[task].job, Done(if r.Success? then SuspensionStored else Refused))
      && after.ledger == w.ledger && after.log == w.log
  {
    hide Transit;
  }

  /** Where a claim leads, as the caller sees it. */
  lemma ClaimLeads(w: World, task: nat, t: InvocationTransition, now: Timestamp)
    requires At(w, task) && w.tasks[task].pc.Claiming? && t == ToPending(w.tasks[task].pc.expected, w.tasks[task].pc.authorization)
    ensures
      var id := w.tasks[task].job.input.invocationId;
      var after := Next(Memory, w, ClaimStep(task, now, Delivered));
      && At(after, task) && after.tasks[task].job == w.tasks[task].job && after.ledger == w.ledger
      && if Transit(Memory, w.records, id, t, now).1.Success? then
           after.tasks[task].pc.Executing? && after.tasks[task].pc.authorization == t.audit.recordId
         else after.tasks[task].pc == Done(Refused)
  {
    hide Transit;
  }

  /** Where settling leads, as the caller sees it. */
  lemma SettleLeads(w: World, task: nat, t: InvocationTransition, now: Timestamp)
    requires At(w, task) && w.tasks[task].pc.Settling? && t == Transition(Pending, w.tasks[task].pc.prepared, Outcome(w.tasks[task].pc.outcome))
    ensures
      var id := w.tasks[task].job.input.invocationId;
      var pc := w.tasks[task].pc;
      var after := Next(Memory, w, SettleStep(task, now, Delivered));
      && At(after, task) && after.tasks[task].job == w.tasks[task].job
      && if Transit(Memory, w.records, id, t, now).1.Success? then
           after.tasks[task].pc.Done? && Shown(after.tasks[task].pc.answer) == ShownState(pc.prepared)
         else after.tasks[task].pc == SettleFailed(pc.key, pc.serial, pc.authorization, pc.prepared, pc.outcome, false)
  {
    hide Transit;
  }
}
