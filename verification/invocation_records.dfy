/**
 Durable invocation records: the values, the transition table and the atomic store operations of
 crates/kiteframe-provider/src/status.rs and crates/kiteframe-provider-sqlite/src/lib.rs.

 Each store operation is one function on the table of records. The two backends differ in what a
 refused reservation leaves behind, in the clock guard of `abandon`, in the timestamp range, and in
 recovery, which only SQLite performs.
 */
module InvocationRecords {
  import opened Outcomes
  import opened Text
  import opened Contract

  const MAX_I64: nat := 0x7FFF_FFFF_FFFF_FFFF

  datatype Suspension = Suspension(checkpointRef: string, evidenceKind: string, requestRef: string, proposalDigest: string)

  datatype State =
    | Reserved
    | Pending
    | Suspended(suspension: Suspension)
    | Succeeded(result: string)
    | Failed(error: string)
    | Denied(error: string)
    | OutcomeUnknown
    | Abandoned

  datatype StateKind =
    ReservedKind | PendingKind | SuspendedKind | SucceededKind | FailedKind | DeniedKind | UnknownKind | AbandonedKind

  function KindOf(state: State): StateKind {
    match state
    case Reserved => ReservedKind
    case Pending => PendingKind
    case Suspended(_) => SuspendedKind
    case Succeeded(_) => SucceededKind
    case Failed(_) => FailedKind
    case Denied(_) => DeniedKind
    case OutcomeUnknown => UnknownKind
    case Abandoned => AbandonedKind
  }

  datatype LinkKind = AuthorizationLink | OutcomeLink

  datatype AuditLink = AuditLink(kind: LinkKind, recordId: string, attachedAt: Timestamp)

  datatype TransitionAudit = NoAudit | Authorization(recordId: string) | Outcome(recordId: string)

  datatype Scope = Scope(actor: string, capability: CapabilityIdentity, resource: string, operation: string)

  datatype ReservationKey = ReservationKey(scope: Scope, idempotencyKey: string)

  datatype StatusContext = StatusContext(
    tenant: string, human: string, workload: string, run: string, actor: string,
    agent: string, task: string, session: string, admission: string)

  /** What a reservation carries besides its key, and no later step changes. */
  datatype ReservationFacts = ReservationFacts(
    statusId: string, admissionId: string, grantDigest: string, catalogName: string, catalogRevision: string,
    catalogDigest: string, authorityRevisionDigest: string, proposalDigest: string, evidenceRefs: seq<string>)

  datatype ReservationInput = ReservationInput(
    invocationId: string, key: ReservationKey, requestDigest: string, context: StatusContext, facts: ReservationFacts)

  type Seconds = t: Timestamp | t >= 1 witness 1

  /** The part of a locked descriptor the store reads; None is a descriptor without an idempotency contract. */
  datatype EffectDescriptor = EffectDescriptor(identity: CapabilityIdentity, digest: string, retention: Option<Seconds>)

  datatype AbandonmentAuthorization = AbandonmentAuthorization(recordId: string, authorizedBy: string)

  datatype StoredInvocation = StoredInvocation(
    invocationId: string,
    key: ReservationKey,
    requestDigest: string,
    context: StatusContext,
    facts: ReservationFacts,
    descriptorDigest: string,
    state: State,
    auditLinks: seq<AuditLink>,
    createdAt: Timestamp,
    updatedAt: Timestamp,
    retentionUntil: Timestamp,
    abandonment: Option<AbandonmentAuthorization>)

  datatype StoreError =
    | InvalidReservation
    | NoIdempotencyContract
    | ScopeMismatch
    | RetentionOverflow
    | RetentionTooShort
    | TimestampOutOfRange
    | ContextMismatch
    | KeyBoundToOtherRequest
    | ScopeFenced
    | InvocationIdTaken
    | StorageConstraint
    | NotFound
    | CompareAndSwapFailed
    | ClockMovedBackwards
    | AuditRecordAlreadyLinked
    | NotOutcomeUnknown
    | StatusUnavailable

  datatype ReservationKind = NewlyReserved | Existing

  datatype Reservation = Reservation(kind: ReservationKind, stored: StoredInvocation)

  datatype Backend = Memory | Sqlite

  type Records = map<ReservationKey, StoredInvocation>

  // ---------------------------------------------------------------- the transition table

  predicate Fences(state: State) {
    state.Reserved? || state.Pending? || state.Suspended? || state.OutcomeUnknown?
  }

  /** An answer the caller can rely on. */
  predicate Final(state: State) {
    state.Succeeded? || state.Failed?
  }

  predicate AllowedTransition(expected: State, next: State) {
    match expected
    case Reserved => next.Pending? || next.Suspended? || next.Denied?
    case Pending => next.Suspended? || next.Succeeded? || next.Failed? || next.Denied? || next.OutcomeUnknown?
    case Suspended(_) => next.Pending? || next.Denied?
    case OutcomeUnknown => next.Succeeded? || next.Failed? || next.Denied?
    case _ => false
  }

  predicate AuditMatches(expected: State, next: State, audit: TransitionAudit) {
    match next
    case Pending => (expected.Reserved? || expected.Suspended?) && audit.Authorization?
    case Succeeded(_) => (expected.Pending? || expected.OutcomeUnknown?) && audit.Outcome?
    case Failed(_) => (expected.Pending? || expected.OutcomeUnknown?) && audit.Outcome?
    case OutcomeUnknown => expected.Pending? && !audit.Authorization?
    case Suspended(_) => (expected.Reserved? || expected.Pending?) && audit.NoAudit?
    case Denied(_) => (expected.Reserved? || expected.Pending? || expected.Suspended? || expected.OutcomeUnknown?) && audit.NoAudit?
    case _ => false
  }

  datatype RawTransition = Transition(expected: State, next: State, audit: TransitionAudit)

  predicate CorrespondingTransition(t: RawTransition) {
    && (t.audit.NoAudit? || !Blank(t.audit.recordId))
    && AllowedTransition(t.expected, t.next)
    && AuditMatches(t.expected, t.next, t.audit)
  }

  /** A transition that `InvocationTransition::try_new` accepts. */
  type InvocationTransition = t: RawTransition | CorrespondingTransition(t)
    witness Transition(Reserved, Denied(""), NoAudit)

  // ---------------------------------------------------------------- reserving

  predicate ProtectedReference(reference: string) {
    exists scheme | scheme in {"evidence://", "vault://"} ::
      && scheme < reference
      && forall i | |scheme| <= i < |reference| :: '!' <= reference[i] && reference[i] != '\U{007F}'
  }

  predicate ValidInput(input: ReservationInput) {
    && !Blank(input.facts.statusId)
    && !Blank(input.facts.catalogName)
    && !Blank(input.facts.catalogRevision)
    && input.key.scope.actor == input.context.actor
    && input.facts.admissionId == input.context.admission
    && forall i | 0 <= i < |input.facts.evidenceRefs| :: ProtectedReference(input.facts.evidenceRefs[i])
  }

  /** `StoredInvocation::try_reserve`. */
  function TryReserve(input: ReservationInput, descriptor: EffectDescriptor, createdAt: Timestamp, retentionUntil: Timestamp)
    : Result<StoredInvocation, StoreError>
  {
    if !ValidInput(input) then Failure(InvalidReservation)
    else if descriptor.retention.None? then Failure(NoIdempotencyContract)
    else if descriptor.identity != input.key.scope.capability || input.key.scope.operation != descriptor.identity.name then Failure(ScopeMismatch)
    else if createdAt + descriptor.retention.value > MAX_U64 then Failure(RetentionOverflow)
    else if retentionUntil < createdAt + descriptor.retention.value then Failure(RetentionTooShort)
    else Success(StoredInvocation(input.invocationId, input.key, input.requestDigest, input.context, input.facts,
                                  descriptor.digest, Reserved, [], createdAt, createdAt, retentionUntil, None))
  }

  function Retained(records: Records, now: Timestamp): Records {
    map key | key in records && (records[key].retentionUntil > now || Fences(records[key].state)) :: records[key]
  }

  predicate ScopeIsFenced(records: Records, scope: Scope) {
    exists key | key in records :: key.scope == scope && Fences(records[key].state)
  }

  predicate IdTaken(records: Records, invocationId: string) {
    exists key | key in records :: records[key].invocationId == invocationId
  }

  predicate StatusIdTaken(records: Records, statusId: string) {
    exists key | key in records :: records[key].facts.statusId == statusId
  }

  /** What a reservation finds in the purged table: the record of its key, or a reason to refuse, or room for a new one. */
  function Place(backend: Backend, kept: Records, created: StoredInvocation): Result<Reservation, StoreError> {
    if created.key in kept then
      if kept[created.key].context != created.context then Failure(ContextMismatch)
      else if kept[created.key].requestDigest != created.requestDigest then Failure(KeyBoundToOtherRequest)
      else Success(Reservation(Existing, kept[created.key]))
    else if ScopeIsFenced(kept, created.key.scope) then Failure(ScopeFenced)
    else if IdTaken(kept, created.invocationId) then Failure(InvocationIdTaken)
    else if backend.Sqlite? && StatusIdTaken(kept, created.facts.statusId) then Failure(StorageConstraint)
    else Success(Reservation(NewlyReserved, created))
  }

  /**
   `reserve_or_get`. The in-memory store has already purged when it refuses; SQLite rolls the purge back.
   SQLite also holds timestamps in a signed column and keeps status IDs unique.
   */
  function Reserve(backend: Backend, records: Records, input: ReservationInput, descriptor: EffectDescriptor, now: Timestamp, retentionUntil: Timestamp)
    : (Records, Result<Reservation, StoreError>)
  {
    match TryReserve(input, descriptor, now, retentionUntil)
    case Failure(error) => (records, Failure(error))
    case Success(created) =>
      if backend.Sqlite? && (now > MAX_I64 || retentionUntil > MAX_I64) then (records, Failure(TimestampOutOfRange))
      else
        var kept := Retained(records, now);
        match Place(backend, kept, created)
        case Failure(error) => (if backend.Memory? then kept else records, Failure(error))
        case Success(reservation) =>
          (if reservation.kind.NewlyReserved? then kept[created.key := created] else kept, Success(reservation))
  }

  // ---------------------------------------------------------------- transitions

  ghost predicate Holds(records: Records, invocationId: string, key: ReservationKey) {
    key in records && records[key].invocationId == invocationId
  }

  predicate Linked(links: seq<AuditLink>, kind: LinkKind, recordId: string) {
    exists i | 0 <= i < |links| :: links[i].kind == kind && links[i].recordId == recordId
  }

  function LinkOf(audit: TransitionAudit, now: Timestamp): seq<AuditLink> {
    match audit
    case NoAudit => []
    case Authorization(recordId) => [AuditLink(AuthorizationLink, recordId, now)]
    case Outcome(recordId) => [AuditLink(OutcomeLink, recordId, now)]
  }

  /** The compare-and-swap on one record. SQLite cannot tell why its guarded UPDATE matched no row. */
  function Swap(backend: Backend, stored: StoredInvocation, t: InvocationTransition, now: Timestamp): Result<StoredInvocation, StoreError> {
    var link := LinkOf(t.audit, now);
    if stored.state != t.expected then Failure(CompareAndSwapFailed)
    else if now < stored.updatedAt then Failure(if backend.Memory? then ClockMovedBackwards else CompareAndSwapFailed)
    else if link != [] && Linked(stored.auditLinks, link[0].kind, link[0].recordId) then
      Failure(if backend.Memory? then AuditRecordAlreadyLinked else StorageConstraint)
    else Success(stored.(state := t.next, auditLinks := stored.auditLinks + link, updatedAt := now))
  }

  ghost function Transit(backend: Backend, records: Records, invocationId: string, t: InvocationTransition, now: Timestamp)
    : (Records, Result<(), StoreError>)
  {
    if backend.Sqlite? && now > MAX_I64 then (records, Failure(TimestampOutOfRange))
    else if !exists key :: Holds(records, invocationId, key) then
      (records, Failure(if backend.Memory? then NotFound else CompareAndSwapFailed))
    else
      var key :| Holds(records, invocationId, key);
      match Swap(backend, records[key], t, now)
      case Failure(error) => (records, Failure(error))
      case Success(next) => (records[key := next], Success(()))
  }

  /** The in-memory store steps the timestamp by one second; SQLite takes the clock and refuses one that moved back. */
  function AbandonOne(backend: Backend, stored: StoredInvocation, context: StatusContext, authorization: AbandonmentAuthorization, now: Timestamp)
    : Result<StoredInvocation, StoreError>
  {
    if stored.context != context then Failure(if backend.Memory? then ContextMismatch else StatusUnavailable)
    else if stored.state != OutcomeUnknown then Failure(if backend.Memory? then NotOutcomeUnknown else StatusUnavailable)
    else if backend.Sqlite? && now < stored.updatedAt then Failure(StatusUnavailable)
    else
      var at := if backend.Sqlite? then now else if stored.updatedAt < MAX_U64 then stored.updatedAt + 1 else MAX_U64;
      Success(stored.(state := Abandoned, abandonment := Some(authorization), updatedAt := at))
  }

  ghost function Abandon(backend: Backend, records: Records, invocationId: string, context: StatusContext, authorization: AbandonmentAuthorization, now: Timestamp)
    : (Records, Result<(), StoreError>)
  {
    if backend.Sqlite? && now > MAX_I64 then (records, Failure(TimestampOutOfRange))
    else if !exists key :: Holds(records, invocationId, key) then
      (records, Failure(if backend.Memory? then NotFound else StatusUnavailable))
    else
      var key :| Holds(records, invocationId, key);
      match AbandonOne(backend, records[key], context, authorization, now)
      case Failure(error) => (records, Failure(error))
      case Success(next) => (records[key := next], Success(()))
  }

  function RecoverOne(stored: StoredInvocation, now: Timestamp): StoredInvocation {
    if stored.state.Reserved? || stored.state.Pending? then
      stored.(state := OutcomeUnknown, updatedAt := if stored.updatedAt >= now then stored.updatedAt else now)
    else stored
  }

  /** `recover_incomplete_effects`: every effect a crash interrupted becomes outcome-unknown. */
  function Recover(records: Records, now: Timestamp): Records {
    map key | key in records :: RecoverOne(records[key], now)
  }

  /** Reopening a backend. The in-memory store has nothing to recover; SQLite does not open at a time it cannot hold. */
  function Reopen(backend: Backend, records: Records, now: Timestamp): Records {
    if backend.Sqlite? && now <= MAX_I64 then Recover(records, now) else records
  }

  // ---------------------------------------------------------------- runs of any caller

  datatype Call =
    | ReserveCall(input: ReservationInput, descriptor: EffectDescriptor, now: Timestamp, retentionUntil: Timestamp)
    | TransitionCall(invocationId: string, transition: InvocationTransition, now: Timestamp)
    | AbandonCall(invocationId: string, context: StatusContext, authorization: AbandonmentAuthorization, now: Timestamp)
    | ReopenCall(now: Timestamp)

  ghost function Apply(backend: Backend, records: Records, call: Call): Records {
    match call
    case ReserveCall(input, descriptor, now, retentionUntil) => Reserve(backend, records, input, descriptor, now, retentionUntil).0
    case TransitionCall(invocationId, transition, now) => Transit(backend, records, invocationId, transition, now).0
    case AbandonCall(invocationId, context, authorization, now) => Abandon(backend, records, invocationId, context, authorization, now).0
    case ReopenCall(now) => Reopen(backend, records, now)
  }

  ghost function StateAfter(backend: Backend, calls: seq<Call>): Records {
    if calls == [] then map[] else Apply(backend, StateAfter(backend, calls[..|calls| - 1]), calls[|calls| - 1])
  }

  // ---------------------------------------------------------------- what every run keeps

  ghost predicate KeysMatch(records: Records) {
    forall key | key in records :: records[key].key == key
  }

  ghost predicate UniqueIds(records: Records) {
    forall a, b | a in records && b in records && records[a].invocationId == records[b].invocationId :: a == b
  }

  /** At most one record of an idempotency scope is Reserved, Pending, Suspended or OutcomeUnknown. */
  ghost predicate ScopesExclusive(records: Records) {
    forall a, b | a in records && b in records && a.scope == b.scope && Fences(records[a].state) && Fences(records[b].state) :: a == b
  }

  predicate OutcomesAtMost(links: seq<AuditLink>, count: nat) {
    forall i | 0 <= i < |links| - count :: links[i].kind.AuthorizationLink?
  }

  /** Authorizations first, then at most two outcomes. */
  predicate LinkShape(links: seq<AuditLink>) {
    && OutcomesAtMost(links, 2)
    && (|links| >= 2 && links[|links| - 2].kind.OutcomeLink? ==> links[|links| - 1].kind.OutcomeLink?)
  }

  predicate LinkTimes(links: seq<AuditLink>, updatedAt: Timestamp) {
    && (forall i | 0 <= i < |links| :: links[i].attachedAt <= updatedAt)
    && (forall i, j | 0 <= i < j < |links| :: links[i].attachedAt <= links[j].attachedAt)
  }

  predicate LinksDistinct(links: seq<AuditLink>) {
    forall i, j | 0 <= i < j < |links| :: links[i].kind != links[j].kind || links[i].recordId != links[j].recordId
  }

  predicate Authorized(links: seq<AuditLink>) {
    links != [] && links[0].kind.AuthorizationLink?
  }

  /** What the state says about the links. In memory every settled or uncertain effect was authorized. */
  predicate LinksFitState(backend: Backend, stored: StoredInvocation) {
    var links := stored.auditLinks;
    match stored.state
    case Reserved => links == []
    case Pending => links != [] && OutcomesAtMost(links, 0)
    case Suspended(_) => OutcomesAtMost(links, 0)
    case OutcomeUnknown => OutcomesAtMost(links, 1) && (backend.Memory? ==> Authorized(links))
    case Succeeded(_) => links != [] && links[|links| - 1].kind.OutcomeLink? && (backend.Memory? ==> Authorized(links))
    case Failed(_) => links != [] && links[|links| - 1].kind.OutcomeLink? && (backend.Memory? ==> Authorized(links))
    case Denied(_) => true
    case Abandoned => true
  }

  predicate HistoryOk(backend: Backend, stored: StoredInvocation) {
    && LinkShape(stored.auditLinks)
    && LinkTimes(stored.auditLinks, stored.updatedAt)
    && LinksDistinct(stored.auditLinks)
    && LinksFitState(backend, stored)
    && (stored.abandonment.Some? <==> stored.state.Abandoned?)
  }

  ghost predicate StoreInv(backend: Backend, records: Records) {
    && KeysMatch(records)
    && UniqueIds(records)
    && ScopesExclusive(records)
    && forall key | key in records :: HistoryOk(backend, records[key])
  }

  lemma HasUniqueIds(backend: Backend, records: Records)
    requires StoreInv(backend, records)
    ensures UniqueIds(records)
  {}

  /** Fields no operation changes while a record is stored. */
  predicate SameReservation(a: StoredInvocation, b: StoredInvocation) {
    && a.invocationId == b.invocationId && a.key == b.key && a.requestDigest == b.requestDigest
    && a.context == b.context && a.facts == b.facts && a.descriptorDigest == b.descriptorDigest
    && a.createdAt == b.createdAt && a.retentionUntil == b.retentionUntil
  }

  lemma AppendKeepsTimes(links: seq<AuditLink>, link: AuditLink, updatedAt: Timestamp)
    requires LinkTimes(links, updatedAt) && updatedAt <= link.attachedAt
    ensures LinkTimes(links + [link], link.attachedAt)
  {}

  lemma AppendKeepsDistinct(links: seq<AuditLink>, link: AuditLink)
    requires LinksDistinct(links) && !Linked(links, link.kind, link.recordId)
    ensures LinksDistinct(links + [link])
  {}

  lemma AppendAuthorization(links: seq<AuditLink>, link: AuditLink)
    requires OutcomesAtMost(links, 0) && link.kind.AuthorizationLink?
    ensures OutcomesAtMost(links + [link], 0) && LinkShape(links + [link])
  {}

  lemma AppendOutcome(links: seq<AuditLink>, link: AuditLink)
    requires OutcomesAtMost(links, 1) && link.kind.OutcomeLink?
    ensures LinkShape(links + [link]) && (OutcomesAtMost(links, 0) ==> OutcomesAtMost(links + [link], 1))
  {}

  lemma AppendKeepsLinks(links: seq<AuditLink>, link: AuditLink, updatedAt: Timestamp)
    requires LinkTimes(links, updatedAt) && updatedAt <= link.attachedAt
    requires LinksDistinct(links) && !Linked(links, link.kind, link.recordId)
    requires OutcomesAtMost(links, if link.kind.AuthorizationLink? then 0 else 1)
    ensures
      var grown := links + [link];
      && LinkTimes(grown, link.attachedAt) && LinksDistinct(grown) && LinkShape(grown)
      && (OutcomesAtMost(links, 0) ==> OutcomesAtMost(grown, if link.kind.AuthorizationLink? then 0 else 1))
      && (Authorized(links) || (links == [] && link.kind.AuthorizationLink?) ==> Authorized(grown))
  {
    AppendKeepsTimes(links, link, updatedAt);
    AppendKeepsDistinct(links, link);
    if link.kind.AuthorizationLink? {
      AppendAuthorization(links, link);
    } else {
      AppendOutcome(links, link);
    }
  }

  /** Links that fit the expected state fit the next one, once the transition's link is attached. */
  lemma LinkFitsNextState(backend: Backend, stored: StoredInvocation, t: InvocationTransition, link: AuditLink, grown: seq<AuditLink>, next: StoredInvocation)
    requires LinksFitState(backend, stored) && stored.state == t.expected
    requires t.audit == if link.kind.AuthorizationLink? then Authorization(link.recordId) else Outcome(link.recordId)
    requires grown != [] && grown[|grown| - 1] == link
    requires OutcomesAtMost(stored.auditLinks, 0) ==> OutcomesAtMost(grown, if link.kind.AuthorizationLink? then 0 else 1)
    requires Authorized(stored.auditLinks) || (stored.auditLinks == [] && link.kind.AuthorizationLink?) ==> Authorized(grown)
    requires next.state == t.next && next.auditLinks == grown
    ensures LinksFitState(backend, next)
  {}

  lemma RoomForLink(backend: Backend, stored: StoredInvocation, t: InvocationTransition)
    requires LinksFitState(backend, stored) && stored.state == t.expected && !t.audit.NoAudit?
    ensures OutcomesAtMost(stored.auditLinks, if t.audit.Authorization? then 0 else 1)
  {}

  lemma SwapKeepsHistory(backend: Backend, stored: StoredInvocation, t: InvocationTransition, now: Timestamp)
    requires HistoryOk(backend, stored) && Swap(backend, stored, t, now).Success?
    ensures
      var next := Swap(backend, stored, t, now).value;
      && HistoryOk(backend, next)
      && SameReservation(stored, next)
      && (Fences(next.state) ==> Fences(stored.state))
  {
    var links := stored.auditLinks;
    var next := Swap(backend, stored, t, now).value;
    if t.audit.NoAudit? {
      assert next.auditLinks == links;
    } else {
      var link := LinkOf(t.audit, now)[0];
      assert next.auditLinks == links + [link];
      RoomForLink(backend, stored, t);
      AppendKeepsLinks(links, link, stored.updatedAt);
      LinkFitsNextState(backend, stored, t, link, links + [link], next);
    }
  }

  lemma AbandonKeepsHistory(backend: Backend, stored: StoredInvocation, context: StatusContext, authorization: AbandonmentAuthorization, now: Timestamp)
    requires HistoryOk(backend, stored) && AbandonOne(backend, stored, context, authorization, now).Success?
    ensures
      var next := AbandonOne(backend, stored, context, authorization, now).value;
      HistoryOk(backend, next) && SameReservation(stored, next) && !Fences(next.state)
  {}

  lemma RecoverKeepsHistory(stored: StoredInvocation, now: Timestamp)
    requires HistoryOk(Sqlite, stored)
    ensures HistoryOk(Sqlite, RecoverOne(stored, now)) && SameReservation(stored, RecoverOne(stored, now))
    ensures Fences(RecoverOne(stored, now).state) == Fences(stored.state)
  {}

  /** Replacing one record by a later version of itself keeps the table's invariant. */
  lemma UpdateKeepsInv(backend: Backend, records: Records, key: ReservationKey, next: StoredInvocation)
    requires StoreInv(backend, records) && key in records
    requires HistoryOk(backend, next) && SameReservation(records[key], next)
    requires Fences(next.state) ==> Fences(records[key].state)
    ensures StoreInv(backend, records[key := next])
  {}

  lemma RetainedKeepsInv(backend: Backend, records: Records, now: Timestamp)
    requires StoreInv(backend, records)
    ensures StoreInv(backend, Retained(records, now))
  {}

  lemma InsertKeepsInv(backend: Backend, records: Records, created: StoredInvocation)
    requires StoreInv(backend, records) && created.key !in records
    requires HistoryOk(backend, created)
    requires !ScopeIsFenced(records, created.key.scope) && !IdTaken(records, created.invocationId)
    ensures StoreInv(backend, records[created.key := created])
  {}

  lemma NewRecordIsOk(backend: Backend, created: StoredInvocation)
    requires created.state.Reserved? && created.auditLinks == [] && created.abandonment.None?
    ensures HistoryOk(backend, created)
  {}

  lemma PlaceKeepsInv(backend: Backend, kept: Records, created: StoredInvocation)
    requires StoreInv(backend, kept) && HistoryOk(backend, created)
    requires Place(backend, kept, created).Success? && Place(backend, kept, created).value.kind.NewlyReserved?
    ensures StoreInv(backend, kept[created.key := created])
  {
    InsertKeepsInv(backend, kept, created);
  }

  lemma ReserveKeepsInv(backend: Backend, records: Records, input: ReservationInput, descriptor: EffectDescriptor, now: Timestamp, retentionUntil: Timestamp)
    requires StoreInv(backend, records)
    ensures StoreInv(backend, Reserve(backend, records, input, descriptor, now, retentionUntil).0)
  {
    var attempt := TryReserve(input, descriptor, now, retentionUntil);
    if attempt.Success? {
      var created := attempt.value;
      NewRecordIsOk(backend, created);
      RetainedKeepsInv(backend, records, now);
      var kept := Retained(records, now);
      var placed := Place(backend, kept, created);
      if placed.Success? && placed.value.kind.NewlyReserved? {
        PlaceKeepsInv(backend, kept, created);
      }
    }
  }

  lemma RecoverKeepsInv(records: Records, now: Timestamp)
    requires StoreInv(Sqlite, records)
    ensures StoreInv(Sqlite, Recover(records, now))
  {
    forall key | key in records
      ensures HistoryOk(Sqlite, RecoverOne(records[key], now)) && SameReservation(records[key], RecoverOne(records[key], now))
      ensures Fences(RecoverOne(records[key], now).state) == Fences(records[key].state)
    {
      RecoverKeepsHistory(records[key], now);
    }
  }

  /** With unique IDs, the record found by ID is the only one the step can touch. */
  lemma TransitFound(backend: Backend, records: Records, invocationId: string, key: ReservationKey, t: InvocationTransition, now: Timestamp)
    requires UniqueIds(records) && Holds(records, invocationId, key)
    ensures Transit(backend, records, invocationId, t, now) ==
            if backend.Sqlite? && now > MAX_I64 then (records, Failure(TimestampOutOfRange))
            else match Swap(backend, records[key], t, now)
              case Failure(error) => (records, Failure(error))
              case Success(next) => (records[key := next], Success(()))
  {
    assert forall other | Holds(records, invocationId, other) :: other == key;
  }

  lemma AbandonFound(backend: Backend, records: Records, invocationId: string, key: ReservationKey, context: StatusContext, authorization: AbandonmentAuthorization, now: Timestamp)
    requires UniqueIds(records) && Holds(records, invocationId, key)
    ensures Abandon(backend, records, invocationId, context, authorization, now) ==
            if backend.Sqlite? && now > MAX_I64 then (records, Failure(TimestampOutOfRange))
            else match AbandonOne(backend, records[key], context, authorization, now)
              case Failure(error) => (records, Failure(error))
              case Success(next) => (records[key := next], Success(()))
  {
    assert forall other | Holds(records, invocationId, other) :: other == key;
  }

  lemma TransitKeepsInv(backend: Backend, records: Records, invocationId: string, t: InvocationTransition, now: Timestamp)
    requires StoreInv(backend, records)
    ensures StoreInv(backend, Transit(backend, records, invocationId, t, now).0)
  {
    if key :| Holds(records, invocationId, key) {
      TransitFound(backend, records, invocationId, key, t, now);
      var swapped := Swap(backend, records[key], t, now);
      if swapped.Success? {
        SwapKeepsHistory(backend, records[key], t, now);
        UpdateKeepsInv(backend, records, key, swapped.value);
      }
    }
  }

  lemma AbandonKeepsInv(backend: Backend, records: Records, invocationId: string, context: StatusContext, authorization: AbandonmentAuthorization, now: Timestamp)
    requires StoreInv(backend, records)
    ensures StoreInv(backend, Abandon(backend, records, invocationId, context, authorization, now).0)
  {
    if key :| Holds(records, invocationId, key) {
      AbandonFound(backend, records, invocationId, key, context, authorization, now);
      var abandoned := AbandonOne(backend, records[key], context, authorization, now);
      if abandoned.Success? {
        AbandonKeepsHistory(backend, records[key], context, authorization, now);
        UpdateKeepsInv(backend, records, key, abandoned.value);
      }
    }
  }

  lemma ApplyKeepsInv(backend: Backend, records: Records, call: Call)
    requires StoreInv(backend, records)
    ensures StoreInv(backend, Apply(backend, records, call))
  {
    match call
    case ReserveCall(input, descriptor, now, retentionUntil) =>
      ReserveKeepsInv(backend, records, input, descriptor, now, retentionUntil);
    case TransitionCall(invocationId, t, now) =>
      TransitKeepsInv(backend, records, invocationId, t, now);
    case AbandonCall(invocationId, context, authorization, now) =>
      AbandonKeepsInv(backend, records, invocationId, context, authorization, now);
    case ReopenCall(now) =>
      if backend.Sqlite? {
        RecoverKeepsInv(records, now);
      }
  }

  /** Whatever is called, in whatever order, across recovery: scopes stay exclusive, IDs unique, histories well shaped. */
  lemma {:induction false} EveryRunKeepsInv(backend: Backend, calls: seq<Call>)
    ensures StoreInv(backend, StateAfter(backend, calls))
    decreases |calls|
  {
    if calls != [] {
      EveryRunKeepsInv(backend, calls[..|calls| - 1]);
      ApplyKeepsInv(backend, StateAfter(backend, calls[..|calls| - 1]), calls[|calls| - 1]);
    }
  }
}
