/**
 What each call to an invocation store answers, and what it leaves behind, stated on the records themselves:
 when a reservation is new, when it finds a record, when it is refused, when a compare-and-swap or an
 abandonment applies, and what recovery changes.
 */
module InvocationAnswers {
  import opened Outcomes
  import opened Text
  import opened Contract
  import opened InvocationRecords

  // ---------------------------------------------------------------- reservations

  /** An effect of which nobody knows how it ends. */
  predicate Unresolved(state: State) {
    state.Reserved? || state.Pending? || state.Suspended? || state.OutcomeUnknown?
  }

  /** The record is still there after a purge at this time. */
  predicate Stays(records: Records, key: ReservationKey, now: Timestamp) {
    key in records && (now < records[key].retentionUntil || Unresolved(records[key].state))
  }

  /** The table after a purge at this time: exactly the resolved records past their deadline are gone. */
  ghost predicate PurgedTo(records: Records, after: Records, now: Timestamp) {
    && (forall key :: key in after <==> Stays(records, key, now))
    && (forall key | key in after :: after[key] == records[key])
  }

  /** A reservation that is well formed, fits its descriptor and keeps the record for at least the locked retention. */
  predicate Considered(backend: Backend, input: ReservationInput, descriptor: EffectDescriptor, now: Timestamp, retentionUntil: Timestamp) {
    && !Blank(input.facts.statusId) && !Blank(input.facts.catalogName) && !Blank(input.facts.catalogRevision)
    && input.context.actor == input.key.scope.actor
    && input.context.admission == input.facts.admissionId
    && (forall i | 0 <= i < |input.facts.evidenceRefs| :: ProtectedReference(input.facts.evidenceRefs[i]))
    && input.key.scope.capability == descriptor.identity
    && input.key.scope.operation == descriptor.identity.name
    && descriptor.retention.Some?
    && now + descriptor.retention.value <= retentionUntil
    && (backend.Sqlite? ==> retentionUntil <= MAX_I64)
  }

  lemma ConsideredExactly(backend: Backend, input: ReservationInput, descriptor: EffectDescriptor, now: Timestamp, retentionUntil: Timestamp)
    ensures Considered(backend, input, descriptor, now, retentionUntil) <==>
            && TryReserve(input, descriptor, now, retentionUntil).Success?
            && (backend.Sqlite? ==> now <= MAX_I64 && retentionUntil <= MAX_I64)
  {}

  /** The record a new reservation makes. */
  function Fresh(input: ReservationInput, descriptor: EffectDescriptor, now: Timestamp, retentionUntil: Timestamp): StoredInvocation {
    StoredInvocation(
      invocationId := input.invocationId, key := input.key, requestDigest := input.requestDigest, context := input.context,
      facts := input.facts, descriptorDigest := descriptor.digest, state := Reserved, auditLinks := [],
      createdAt := now, updatedAt := now, retentionUntil := retentionUntil, abandonment := None)
  }

  /** There is room for a new record: its scope is not fenced and its IDs are free. */
  ghost predicate Room(backend: Backend, records: Records, input: ReservationInput, now: Timestamp) {
    && (forall key | key in records && Unresolved(records[key].state) :: key.scope != input.key.scope)
    && (forall key | Stays(records, key, now) :: records[key].invocationId != input.invocationId)
    && (backend.Sqlite? ==> forall key | Stays(records, key, now) :: records[key].facts.statusId != input.facts.statusId)
  }

  lemma RetainedIsPurged(records: Records, now: Timestamp)
    ensures PurgedTo(records, Retained(records, now), now)
  {}

  lemma PlaceExactly(backend: Backend, records: Records, kept: Records, created: StoredInvocation, input: ReservationInput, now: Timestamp)
    requires PurgedTo(records, kept, now)
    requires created.key == input.key && created.invocationId == input.invocationId && created.facts == input.facts
    requires created.context == input.context && created.requestDigest == input.requestDigest
    ensures Place(backend, kept, created) == Success(Reservation(NewlyReserved, created)) <==>
            !Stays(records, input.key, now) && Room(backend, records, input, now)
    ensures Stays(records, input.key, now) ==>
              Place(backend, kept, created) ==
              if records[input.key].context != input.context then Failure(ContextMismatch)
              else if records[input.key].requestDigest != input.requestDigest then Failure(KeyBoundToOtherRequest)
              else Success(Reservation(Existing, records[input.key]))
    ensures !Stays(records, input.key, now) && !Room(backend, records, input, now) ==> Place(backend, kept, created).Failure?
    ensures Place(backend, kept, created) == Failure(ScopeFenced) <==>
            && !Stays(records, input.key, now)
            && exists key | key in records :: key.scope == input.key.scope && Unresolved(records[key].state)
  {
    assert ScopeIsFenced(kept, input.key.scope) <==> exists key | key in records :: key.scope == input.key.scope && Unresolved(records[key].state) by {
      if key :| key in records && key.scope == input.key.scope && Unresolved(records[key].state) {
        assert Stays(records, key, now) && Fences(kept[key].state);
      }
    }
  }

  /**
   A reservation at any time, on either backend. It is new exactly when it is considered, no record of its key
   stays and there is room; it finds a record exactly when one of its key, context and digest stays; and
   otherwise it is refused. A purge goes with it, which SQLite undoes when it refuses.
   */
  lemma ReserveExactly(backend: Backend, records: Records, input: ReservationInput, descriptor: EffectDescriptor, now: Timestamp, retentionUntil: Timestamp)
    ensures
      var (after, reply) := Reserve(backend, records, input, descriptor, now, retentionUntil);
      var considered := Considered(backend, input, descriptor, now, retentionUntil);
      var stays := Stays(records, input.key, now);
      var made := Fresh(input, descriptor, now, retentionUntil);
      && (considered && !stays && Room(backend, records, input, now) ==>
            && reply == Success(Reservation(NewlyReserved, made))
            && input.key in after && after[input.key] == made
            && PurgedTo(records, after - {input.key}, now))
      && (considered && stays && records[input.key].context == input.context && records[input.key].requestDigest == input.requestDigest ==>
            reply == Success(Reservation(Existing, records[input.key])) && PurgedTo(records, after, now))
      && (considered && stays && records[input.key].context != input.context ==> reply == Failure(ContextMismatch))
      && (considered && stays && records[input.key].context == input.context && records[input.key].requestDigest != input.requestDigest ==>
            reply == Failure(KeyBoundToOtherRequest))
      && (considered && !stays && (exists key | key in records :: key.scope == input.key.scope && Unresolved(records[key].state)) ==>
            reply == Failure(ScopeFenced))
      && (!considered || (!stays && !Room(backend, records, input, now)) ==> reply.Failure?)
      && (reply.Failure? ==> if considered && backend.Memory? then PurgedTo(records, after, now) else after == records)
  {
    ConsideredExactly(backend, input, descriptor, now, retentionUntil);
    RetainedIsPurged(records, now);
    var attempt := TryReserve(input, descriptor, now, retentionUntil);
    if attempt.Success? {
      assert attempt.value == Fresh(input, descriptor, now, retentionUntil);
      PlaceExactly(backend, records, Retained(records, now), attempt.value, input, now);
    }
    hide TryReserve, Place, Room, Considered, ProtectedReference;
  }

  /** Once a settled record's deadline has come, its key can be reserved anew if nothing else is in the way. */
  lemma SettledKeysAreFreed(backend: Backend, records: Records, input: ReservationInput, descriptor: EffectDescriptor, now: Timestamp, retentionUntil: Timestamp)
    requires input.key in records && !Unresolved(records[input.key].state) && records[input.key].retentionUntil <= now
    requires Considered(backend, input, descriptor, now, retentionUntil) && Room(backend, records, input, now)
    ensures Reserve(backend, records, input, descriptor, now, retentionUntil).1
         == Success(Reservation(NewlyReserved, Fresh(input, descriptor, now, retentionUntil)))
  {
    hide Reserve, Considered, Room;
    ReserveExactly(backend, records, input, descriptor, now, retentionUntil);
  }

  // ---------------------------------------------------------------- transitions

  datatype AuditShape = NoLink | AuthorizationShape | OutcomeShape

  function ShapeOf(audit: TransitionAudit): AuditShape {
    match audit
    case NoAudit => NoLink
    case Authorization(_) => AuthorizationShape
    case Outcome(_) => OutcomeShape
  }

  /** Every transition anyone can ask for: what it expects, where it leads and what it links. */
  const TRANSITIONS: set<(StateKind, StateKind, AuditShape)> := {
    (ReservedKind, PendingKind, AuthorizationShape),
    (ReservedKind, SuspendedKind, NoLink),
    (ReservedKind, DeniedKind, NoLink),
    (PendingKind, SuspendedKind, NoLink),
    (PendingKind, SucceededKind, OutcomeShape),
    (PendingKind, FailedKind, OutcomeShape),
    (PendingKind, UnknownKind, OutcomeShape),
    (PendingKind, UnknownKind, NoLink),
    (PendingKind, DeniedKind, NoLink),
    (SuspendedKind, PendingKind, AuthorizationShape),
    (SuspendedKind, DeniedKind, NoLink),
    (UnknownKind, SucceededKind, OutcomeShape),
    (UnknownKind, FailedKind, OutcomeShape),
    (UnknownKind, DeniedKind, NoLink) }

  lemma TransitionsExactly(t: RawTransition)
    ensures CorrespondingTransition(t) <==>
            && (KindOf(t.expected), KindOf(t.next), ShapeOf(t.audit)) in TRANSITIONS
            && (ShapeOf(t.audit) == NoLink || !Blank(t.audit.recordId))
  {}

  /** The record already links to what the transition would link. */
  predicate AlreadyLinked(stored: StoredInvocation, audit: TransitionAudit) {
    match audit
    case NoAudit => false
    case Authorization(recordId) =>
      exists i | 0 <= i < |stored.auditLinks| :: stored.auditLinks[i].kind.AuthorizationLink? && stored.auditLinks[i].recordId == recordId
    case Outcome(recordId) =>
      exists i | 0 <= i < |stored.auditLinks| :: stored.auditLinks[i].kind.OutcomeLink? && stored.auditLinks[i].recordId == recordId
  }

  /** The record a transition leaves. */
  function Moved(stored: StoredInvocation, t: RawTransition, now: Timestamp): StoredInvocation {
    var links :=
      match t.audit
      case NoAudit => stored.auditLinks
      case Authorization(recordId) => stored.auditLinks + [AuditLink(AuthorizationLink, recordId, now)]
      case Outcome(recordId) => stored.auditLinks + [AuditLink(OutcomeLink, recordId, now)];
    stored.(state := t.next, updatedAt := now, auditLinks := links)
  }

  predicate MayMove(backend: Backend, stored: StoredInvocation, t: RawTransition, now: Timestamp) {
    stored.state == t.expected && stored.updatedAt <= now && !AlreadyLinked(stored, t.audit) && (backend.Sqlite? ==> now <= MAX_I64)
  }

  lemma SwapExactly(backend: Backend, stored: StoredInvocation, t: InvocationTransition, now: Timestamp)
    requires backend.Sqlite? ==> now <= MAX_I64
    ensures if MayMove(backend, stored, t, now) then Swap(backend, stored, t, now) == Success(Moved(stored, t, now))
            else Swap(backend, stored, t, now).Failure?
  {
    assert stored.auditLinks + [] == stored.auditLinks;
  }

  /**
   A compare-and-swap applies exactly when a record has the ID and the expected state, the clock has not moved
   back and the record does not link to the entry yet; then that record moves and no other changes.
   */
  lemma TransitExactly(backend: Backend, records: Records, invocationId: string, t: InvocationTransition, now: Timestamp)
    requires UniqueIds(records)
    ensures
      var (after, reply) := Transit(backend, records, invocationId, t, now);
      && (forall key | key in records && records[key].invocationId == invocationId ::
            if MayMove(backend, records[key], t, now) then reply.Success? && after == records[key := Moved(records[key], t, now)]
            else reply.Failure? && after == records)
      && ((forall key | key in records :: records[key].invocationId != invocationId) ==> reply.Failure? && after == records)
  {
    if key :| Holds(records, invocationId, key) {
      TransitFound(backend, records, invocationId, key, t, now);
      assert forall other | Holds(records, invocationId, other) :: other == key;
      if backend.Sqlite? ==> now <= MAX_I64 {
        SwapExactly(backend, records[key], t, now);
      }
    } else {
      assert forall key | key in records :: !Holds(records, invocationId, key);
    }
  }

  // ---------------------------------------------------------------- abandonment and recovery

  predicate MayAbandon(backend: Backend, stored: StoredInvocation, context: StatusContext, now: Timestamp) {
    stored.context == context && stored.state.OutcomeUnknown? && (backend.Sqlite? ==> stored.updatedAt <= now <= MAX_I64)
  }

  /** An abandonment applies exactly to an outcome-unknown record of the caller's own context, and frees its scope. */
  lemma AbandonExactly(backend: Backend, records: Records, invocationId: string, context: StatusContext, authorization: AbandonmentAuthorization, now: Timestamp)
    requires UniqueIds(records)
    ensures
      var (after, reply) := Abandon(backend, records, invocationId, context, authorization, now);
      && (forall key | key in records && records[key].invocationId == invocationId ::
            if MayAbandon(backend, records[key], context, now) then
              && reply.Success? && key in after && after == records[key := after[key]]
              && after[key] == records[key].(state := Abandoned, abandonment := Some(authorization), updatedAt := after[key].updatedAt)
              && after[key].updatedAt >= records[key].updatedAt
              && (backend.Sqlite? ==> after[key].updatedAt == now)
            else reply.Failure? && after == records)
      && ((forall key | key in records :: records[key].invocationId != invocationId) ==> reply.Failure? && after == records)
  {
    if key :| Holds(records, invocationId, key) {
      AbandonFound(backend, records, invocationId, key, context, authorization, now);
      assert forall other | Holds(records, invocationId, other) :: other == key;
    } else {
      assert forall key | key in records :: !Holds(records, invocationId, key);
    }
  }

  /** Recovery makes every Reserved or Pending record outcome-unknown, no earlier than it was, and touches nothing else. */
  lemma RecoverExactly(records: Records, now: Timestamp, key: ReservationKey)
    ensures key in Recover(records, now) <==> key in records
    ensures key in records ==>
              var before, after := records[key], Recover(records, now)[key];
              if before.state.Reserved? || before.state.Pending? then
                after == before.(state := OutcomeUnknown, updatedAt := after.updatedAt) && after.updatedAt == (if before.updatedAt >= now then before.updatedAt else now)
              else after == before
  {}
}
