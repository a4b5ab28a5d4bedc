/**
 What the invocation table promises over time: an idempotency key keeps its record for the locked
 retention period, a retry finds it, and an unresolved record is never purged.
 */
module InvocationRetention {
  import opened Outcomes
  import opened Contract
  import opened InvocationRecords

  function ClockOf(call: Call): Timestamp {
    match call
    case ReserveCall(_, _, now, _) => now
    case TransitionCall(_, _, now) => now
    case AbandonCall(_, _, _, now) => now
    case ReopenCall(now) => now
  }

  ghost predicate ClockNeverMovesBack(calls: seq<Call>) {
    forall i, j | 0 <= i < j < |calls| :: ClockOf(calls[i]) <= ClockOf(calls[j])
  }

  ghost function ReplyTo(backend: Backend, calls: seq<Call>, i: nat): Result<Reservation, StoreError>
    requires i < |calls| && calls[i].ReserveCall?
  {
    Reserve(backend, StateAfter(backend, calls[..i]), calls[i].input, calls[i].descriptor, calls[i].now, calls[i].retentionUntil).1
  }

  /** Call number i inserted this record. */
  ghost predicate CreatesAt(backend: Backend, calls: seq<Call>, i: nat, made: StoredInvocation) {
    i < |calls| && calls[i].ReserveCall? && ReplyTo(backend, calls, i) == Success(Reservation(NewlyReserved, made))
  }

  ghost predicate StillStored(records: Records, made: StoredInvocation) {
    made.key in records && SameReservation(made, records[made.key])
  }

  lemma ReserveKeepsStored(backend: Backend, records: Records, call: Call, made: StoredInvocation)
    requires call.ReserveCall? && StillStored(records, made)
    ensures StillStored(Apply(backend, records, call), made) || call.now >= made.retentionUntil
    ensures Fences(records[made.key].state) ==> StillStored(Apply(backend, records, call), made)
  {}

  lemma UpdateKeepsStored(records: Records, key: ReservationKey, next: StoredInvocation, made: StoredInvocation)
    requires StillStored(records, made) && key in records && SameReservation(records[key], next)
    ensures StillStored(records[key := next], made)
  {}

  lemma TransitKeepsStored(backend: Backend, records: Records, call: Call, made: StoredInvocation)
    requires call.TransitionCall? && StoreInv(backend, records) && StillStored(records, made)
    ensures StillStored(Apply(backend, records, call), made)
  {
    if key :| Holds(records, call.invocationId, key) {
      TransitFound(backend, records, call.invocationId, key, call.transition, call.now);
      var swapped := Swap(backend, records[key], call.transition, call.now);
      if swapped.Success? {
        SwapKeepsHistory(backend, records[key], call.transition, call.now);
        UpdateKeepsStored(records, key, swapped.value, made);
      }
    }
  }

  lemma AbandonKeepsStored(backend: Backend, records: Records, call: Call, made: StoredInvocation)
    requires call.AbandonCall? && StoreInv(backend, records) && StillStored(records, made)
    ensures StillStored(Apply(backend, records, call), made)
  {
    if key :| Holds(records, call.invocationId, key) {
      AbandonFound(backend, records, call.invocationId, key, call.context, call.authorization, call.now);
      var abandoned := AbandonOne(backend, records[key], call.context, call.authorization, call.now);
      if abandoned.Success? {
        AbandonKeepsHistory(backend, records[key], call.context, call.authorization, call.now);
        UpdateKeepsStored(records, key, abandoned.value, made);
      }
    }
  }

  /** One call leaves a stored reservation in place unless its retention has run out and its effect is resolved. */
  lemma CallKeepsStored(backend: Backend, records: Records, call: Call, made: StoredInvocation)
    requires StoreInv(backend, records) && StillStored(records, made)
    ensures StillStored(Apply(backend, records, call), made) || ClockOf(call) >= made.retentionUntil
    ensures Fences(records[made.key].state) ==> StillStored(Apply(backend, records, call), made)
  {
    match call
    case ReserveCall(_, _, _, _) => ReserveKeepsStored(backend, records, call, made);
    case TransitionCall(_, _, _) => TransitKeepsStored(backend, records, call, made);
    case AbandonCall(_, _, _, _) => AbandonKeepsStored(backend, records, call, made);
    case ReopenCall(_) =>
  }

  /** After a record is created, it stays stored until some call happens at or after its deadline. */
  lemma {:induction false} StoredUntilDeadline(backend: Backend, calls: seq<Call>, i: nat, j: nat, made: StoredInvocation)
    requires i < j <= |calls| && CreatesAt(backend, calls, i, made) && ClockNeverMovesBack(calls)
    ensures StillStored(StateAfter(backend, calls[..j]), made) || ClockOf(calls[j - 1]) >= made.retentionUntil
    decreases j
  {
    var before := StateAfter(backend, calls[..j - 1]);
    assert calls[..j][..j - 1] == calls[..j - 1];
    assert StateAfter(backend, calls[..j]) == Apply(backend, before, calls[j - 1]);
    if i < j - 1 {
      StoredUntilDeadline(backend, calls, i, j - 1, made);
      if StillStored(before, made) {
        EveryRunKeepsInv(backend, calls[..j - 1]);
        CallKeepsStored(backend, before, calls[j - 1], made);
      }
    }
  }

  lemma CreatedRecord(backend: Backend, calls: seq<Call>, i: nat, made: StoredInvocation)
    requires CreatesAt(backend, calls, i, made)
    ensures made.key == calls[i].input.key && made.requestDigest == calls[i].input.requestDigest && made.context == calls[i].input.context
    ensures calls[i].descriptor.retention.Some?
    ensures made.createdAt == calls[i].now && made.retentionUntil >= calls[i].now + calls[i].descriptor.retention.value
  {}

  /** Two records created for one key are at least the locked retention apart, and the deadline never overflows. */
  lemma SuccessiveRecordsAreApart(backend: Backend, calls: seq<Call>, i: nat, j: nat, first: StoredInvocation, second: StoredInvocation)
    requires i < j && CreatesAt(backend, calls, i, first) && CreatesAt(backend, calls, j, second)
    requires first.key == second.key && ClockNeverMovesBack(calls)
    ensures calls[i].descriptor.retention.Some?
    ensures second.createdAt >= first.retentionUntil >= first.createdAt + calls[i].descriptor.retention.value
  {
    CreatedRecord(backend, calls, i, first);
    CreatedRecord(backend, calls, j, second);
    StoredUntilDeadline(backend, calls, i, j, first);
    assert ClockOf(calls[j - 1]) <= ClockOf(calls[j]);
  }

  /** A reservation the store considers at all. */
  predicate Admissible(backend: Backend, call: Call)
    requires call.ReserveCall?
  {
    && TryReserve(call.input, call.descriptor, call.now, call.retentionUntil).Success?
    && (backend.Sqlite? ==> call.now <= MAX_I64 && call.retentionUntil <= MAX_I64)
  }

  /**
   Before the deadline, and after it for as long as the effect is unresolved, a retry gets the stored
   record exactly when its context and its request digest are those of the first request.
   */
  lemma RetryFindsTheRecord(backend: Backend, calls: seq<Call>, i: nat, j: nat, made: StoredInvocation)
    requires i < j < |calls| && CreatesAt(backend, calls, i, made) && ClockNeverMovesBack(calls)
    requires calls[j].ReserveCall? && calls[j].input.key == made.key && Admissible(backend, calls[j])
    requires
      var before := StateAfter(backend, calls[..j]);
      calls[j].now < made.retentionUntil || (StillStored(before, made) && Fences(before[made.key].state))
    ensures
      var before := StateAfter(backend, calls[..j]);
      && StillStored(before, made)
      && ReplyTo(backend, calls, j) ==
         if calls[j].input.context != made.context then Failure(ContextMismatch)
         else if calls[j].input.requestDigest != made.requestDigest then Failure(KeyBoundToOtherRequest)
         else Success(Reservation(Existing, before[made.key]))
  {
    StoredUntilDeadline(backend, calls, i, j, made);
    assert ClockOf(calls[j - 1]) <= ClockOf(calls[j]);
  }
}
