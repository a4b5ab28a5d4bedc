/**
 What recovery costs. In memory every settled or outcome-unknown effect carries its authorization. On SQLite
 recovery turns a record that was reserved and never authorized into an outcome-unknown one, which can then
 be settled: over whole runs settled effects carry their authorization exactly when no reopening finds a
 Reserved record.
 */
module InvocationRecovery {
  import opened Outcomes
  import opened Contract
  import opened Text
  import opened InvocationRecords

  ghost predicate NoneReserved(records: Records) {
    forall key | key in records :: !records[key].state.Reserved?
  }

  /** Every Succeeded or Failed record links to an authorization. */
  ghost predicate SettledAuthorized(records: Records) {
    forall key | key in records && Final(records[key].state) :: Authorized(records[key].auditLinks)
  }

  // ---------------------------------------------------------------- one recovery

  lemma RecoveredHistory(stored: StoredInvocation, now: Timestamp)
    requires HistoryOk(Memory, stored)
    ensures HistoryOk(Memory, RecoverOne(stored, now)) <==> !stored.state.Reserved?
    ensures SameReservation(stored, RecoverOne(stored, now)) && Fences(RecoverOne(stored, now).state) == Fences(stored.state)
  {}

  /**
   The in-memory invariant, by which settled and outcome-unknown effects carry their authorization, survives
   one recovery exactly when no record is Reserved.
   */
  lemma RecoveryKeepsAuthorizationExactly(records: Records, now: Timestamp)
    requires StoreInv(Memory, records)
    ensures StoreInv(Memory, Recover(records, now)) <==> NoneReserved(records)
  {
    var after := Recover(records, now);
    forall key | key in records
      ensures SameReservation(records[key], after[key]) && Fences(after[key].state) == Fences(records[key].state)
      ensures HistoryOk(Memory, after[key]) <==> !records[key].state.Reserved?
    {
      RecoveredHistory(records[key], now);
    }
    HistoriesDecide(records, after);
  }

  lemma HistoriesDecide(records: Records, after: Records)
    requires StoreInv(Memory, records) && after.Keys == records.Keys
    requires forall key | key in records :: SameReservation(records[key], after[key]) && Fences(after[key].state) == Fences(records[key].state)
    ensures StoreInv(Memory, after) <==> forall key | key in records :: HistoryOk(Memory, after[key])
  {
    SameTable(records, after);
  }

  lemma SameTable(records: Records, after: Records)
    requires after.Keys == records.Keys && KeysMatch(records) && UniqueIds(records) && ScopesExclusive(records)
    requires forall key | key in records :: SameReservation(records[key], after[key]) && Fences(after[key].state) == Fences(records[key].state)
    ensures KeysMatch(after) && UniqueIds(after) && ScopesExclusive(after)
  {}

  // ---------------------------------------------------------------- runs without a reserved record at recovery

  lemma SqliteSwapIsMemorySwap(stored: StoredInvocation, t: InvocationTransition, now: Timestamp)
    requires Swap(Sqlite, stored, t, now).Success?
    ensures Swap(Memory, stored, t, now) == Swap(Sqlite, stored, t, now)
  {}

  lemma TransitKeepsAuthorization(records: Records, id: string, t: InvocationTransition, now: Timestamp)
    requires StoreInv(Memory, records)
    ensures StoreInv(Memory, Transit(Sqlite, records, id, t, now).0)
  {
    if key :| Holds(records, id, key) {
      TransitFound(Sqlite, records, id, key, t, now);
      var swapped := Swap(Sqlite, records[key], t, now);
      if swapped.Success? {
        SqliteSwapIsMemorySwap(records[key], t, now);
        SwapKeepsHistory(Memory, records[key], t, now);
        UpdateKeepsInv(Memory, records, key, swapped.value);
      }
    }
  }

  lemma AbandonOneKeepsAuthorization(stored: StoredInvocation, context: StatusContext, authorization: AbandonmentAuthorization, now: Timestamp)
    requires HistoryOk(Memory, stored) && AbandonOne(Sqlite, stored, context, authorization, now).Success?
    ensures
      var next := AbandonOne(Sqlite, stored, context, authorization, now).value;
      HistoryOk(Memory, next) && SameReservation(stored, next) && !Fences(next.state)
  {}

  lemma AbandonKeepsAuthorization(records: Records, id: string, context: StatusContext, authorization: AbandonmentAuthorization, now: Timestamp)
    requires StoreInv(Memory, records)
    ensures StoreInv(Memory, Abandon(Sqlite, records, id, context, authorization, now).0)
  {
    if key :| Holds(records, id, key) {
      AbandonFound(Sqlite, records, id, key, context, authorization, now);
      var abandoned := AbandonOne(Sqlite, records[key], context, authorization, now);
      if abandoned.Success? {
        AbandonOneKeepsAuthorization(records[key], context, authorization, now);
        UpdateKeepsInv(Memory, records, key, abandoned.value);
      }
    }
  }

  lemma ReserveKeepsAuthorization(records: Records, input: ReservationInput, descriptor: EffectDescriptor, now: Timestamp, retentionUntil: Timestamp)
    requires StoreInv(Memory, records)
    ensures StoreInv(Memory, Reserve(Sqlite, records, input, descriptor, now, retentionUntil).0)
  {
    var attempt := TryReserve(input, descriptor, now, retentionUntil);
    if attempt.Success? {
      var created := attempt.value;
      NewRecordIsOk(Memory, created);
      RetainedKeepsInv(Memory, records, now);
      var kept := Retained(records, now);
      var placed := Place(Sqlite, kept, created);
      if placed.Success? && placed.value.kind.NewlyReserved? {
        InsertKeepsInv(Memory, kept, created);
      }
    }
  }

  /** Reopening recovers the table unless the database does not open at that time. */
  predicate Recovers(call: Call) {
    call.ReopenCall? && call.now <= MAX_I64
  }

  /** Every SQLite call but the recovery of a Reserved record keeps what holds in memory. */
  lemma CallKeepsAuthorization(records: Records, call: Call)
    requires StoreInv(Memory, records) && (Recovers(call) ==> NoneReserved(records))
    ensures StoreInv(Memory, Apply(Sqlite, records, call))
  {
    hide StoreInv, NoneReserved;
    match call
    case ReserveCall(input, descriptor, now, retentionUntil) =>
      ReserveKeepsAuthorization(records, input, descriptor, now, retentionUntil);
    case TransitionCall(id, t, now) =>
      TransitKeepsAuthorization(records, id, t, now);
    case AbandonCall(id, context, authorization, now) =>
      AbandonKeepsAuthorization(records, id, context, authorization, now);
    case ReopenCall(now) =>
      if Recovers(call) {
        RecoveryKeepsAuthorizationExactly(records, now);
      }
  }

  /** No recovery in this run finds a Reserved record. */
  ghost predicate RecoversNoReserved(calls: seq<Call>) {
    forall i | 0 <= i < |calls| && Recovers(calls[i]) :: NoneReserved(StateAfter(Sqlite, calls[..i]))
  }

  lemma PrefixRecoversNoReserved(calls: seq<Call>, k: nat)
    requires RecoversNoReserved(calls) && k <= |calls|
    ensures RecoversNoReserved(calls[..k])
  {
    forall i | 0 <= i < k && Recovers(calls[i])
      ensures NoneReserved(StateAfter(Sqlite, calls[..k][..i]))
    {
      assert calls[..k][..i] == calls[..i];
    }
  }

  lemma {:induction false} RunKeepsAuthorization(calls: seq<Call>)
    requires RecoversNoReserved(calls)
    ensures StoreInv(Memory, StateAfter(Sqlite, calls))
    decreases |calls|
  {
    if calls != [] {
      hide StoreInv, NoneReserved, Apply;
      var last := |calls| - 1;
      PrefixRecoversNoReserved(calls, last);
      RunKeepsAuthorization(calls[..last]);
      CallKeepsAuthorization(StateAfter(Sqlite, calls[..last]), calls[last]);
    }
  }

  lemma MemoryInvariantAuthorizes(records: Records)
    requires StoreInv(Memory, records)
    ensures SettledAuthorized(records)
  {}

  // ---------------------------------------------------------------- runs with one

  /** SQLite holds timestamps in a signed column. */
  ghost predicate TimesFit(records: Records) {
    forall key | key in records :: records[key].updatedAt <= MAX_I64
  }

  lemma TransitKeepsTimes(records: Records, id: string, t: InvocationTransition, now: Timestamp)
    requires UniqueIds(records) && TimesFit(records)
    ensures TimesFit(Transit(Sqlite, records, id, t, now).0)
  {
    if key :| Holds(records, id, key) {
      TransitFound(Sqlite, records, id, key, t, now);
    }
  }

  lemma AbandonKeepsTimes(records: Records, id: string, context: StatusContext, authorization: AbandonmentAuthorization, now: Timestamp)
    requires UniqueIds(records) && TimesFit(records)
    ensures TimesFit(Abandon(Sqlite, records, id, context, authorization, now).0)
  {
    if key :| Holds(records, id, key) {
      AbandonFound(Sqlite, records, id, key, context, authorization, now);
    }
  }

  lemma ReserveKeepsTimes(records: Records, input: ReservationInput, descriptor: EffectDescriptor, now: Timestamp, retentionUntil: Timestamp)
    requires TimesFit(records)
    ensures TimesFit(Reserve(Sqlite, records, input, descriptor, now, retentionUntil).0)
  {}

  lemma ReopenKeepsTimes(records: Records, now: Timestamp)
    requires TimesFit(records)
    ensures TimesFit(Reopen(Sqlite, records, now))
  {}

  lemma CallKeepsTimes(records: Records, call: Call)
    requires UniqueIds(records) && TimesFit(records)
    ensures TimesFit(Apply(Sqlite, records, call))
  {
    hide UniqueIds, TimesFit, Reserve, Transit, Abandon, Reopen;
    match call
    case ReserveCall(input, descriptor, now, retentionUntil) => ReserveKeepsTimes(records, input, descriptor, now, retentionUntil);
    case TransitionCall(id, t, now) => TransitKeepsTimes(records, id, t, now);
    case AbandonCall(id, context, authorization, now) => AbandonKeepsTimes(records, id, context, authorization, now);
    case ReopenCall(now) => ReopenKeepsTimes(records, now);
  }

  lemma {:induction false} RunKeepsTimes(calls: seq<Call>)
    ensures TimesFit(StateAfter(Sqlite, calls))
    decreases |calls|
  {
    if calls != [] {
      var earlier := calls[..|calls| - 1];
      RunKeepsTimes(earlier);
      EveryRunKeepsInv(Sqlite, earlier);
      CallKeepsTimes(StateAfter(Sqlite, earlier), calls[|calls| - 1]);
    }
  }

  /** An operator learns that an outcome-unknown effect succeeded. */
  function Reconcile(stored: StoredInvocation): Call {
    assert !IsWhitespace("audit-1"[0]);
    TransitionCall(stored.invocationId, Transition(OutcomeUnknown, Succeeded("done"), Outcome("audit-1")), stored.updatedAt)
  }

  lemma ReconciledRecord(stored: StoredInvocation)
    requires stored.state.OutcomeUnknown? && stored.auditLinks == []
    ensures Swap(Sqlite, stored, Reconcile(stored).transition, stored.updatedAt)
         == Success(stored.(state := Succeeded("done"), auditLinks := [AuditLink(OutcomeLink, "audit-1", stored.updatedAt)]))
  {
    assert stored.auditLinks + LinkOf(Outcome("audit-1"), stored.updatedAt) == [AuditLink(OutcomeLink, "audit-1", stored.updatedAt)];
  }

  lemma ReconciledTable(records: Records, key: ReservationKey)
    requires UniqueIds(records) && TimesFit(records) && key in records
    requires records[key].state.OutcomeUnknown? && records[key].auditLinks == []
    ensures
      var settled := Apply(Sqlite, records, Reconcile(records[key]));
      && key in settled && settled[key].state == Succeeded("done")
      && settled[key].auditLinks == [AuditLink(OutcomeLink, "audit-1", records[key].updatedAt)]
  {
    hide Swap;
    var stored := records[key];
    assert Holds(records, stored.invocationId, key);
    ReconciledRecord(stored);
    TransitFound(Sqlite, records, stored.invocationId, key, Reconcile(stored).transition, stored.updatedAt);
    hide Transit;
  }

  lemma RecoveredFromReserved(records: Records, key: ReservationKey, now: Timestamp)
    requires StoreInv(Sqlite, records) && TimesFit(records) && key in records && records[key].state.Reserved? && now <= MAX_I64
    ensures
      var recovered := Recover(records, now);
      && key in recovered && UniqueIds(recovered) && TimesFit(recovered)
      && recovered[key].state.OutcomeUnknown? && recovered[key].auditLinks == []
  {
    hide StoreInv, UniqueIds, TimesFit;
    ReservedHasNoLinks(records, key);
    RecoverKeepsInv(records, now);
    HasUniqueIds(Sqlite, Recover(records, now));
    ReopenKeepsTimes(records, now);
  }

  lemma ReservedHasNoLinks(records: Records, key: ReservationKey)
    requires StoreInv(Sqlite, records) && key in records && records[key].state.Reserved?
    ensures records[key].auditLinks == []
  {
    assert HistoryOk(Sqlite, records[key]);
  }

  /** No recovery happens in these calls. */
  predicate RecoversNothing(calls: seq<Call>) {
    forall i | 0 <= i < |calls| :: !Recovers(calls[i])
  }

  lemma StateAfterMore(calls: seq<Call>, call: Call)
    ensures StateAfter(Sqlite, calls + [call]) == Apply(Sqlite, StateAfter(Sqlite, calls), call)
  {
    assert (calls + [call])[..|calls|] == calls;
  }

  /** From any recovery that finds a Reserved record, one more call leads to a settled effect without authorization. */
  lemma ReservedRecoveryLosesAuthorization(calls: seq<Call>, i: nat) returns (more: seq<Call>)
    requires i < |calls| && Recovers(calls[i]) && !NoneReserved(StateAfter(Sqlite, calls[..i]))
    ensures RecoversNothing(more) && !SettledAuthorized(StateAfter(Sqlite, calls[..i + 1] + more))
  {
    hide StoreInv, TimesFit, UniqueIds, Recover, Transit;
    var before := StateAfter(Sqlite, calls[..i]);
    var key :| key in before && before[key].state.Reserved?;
    EveryRunKeepsInv(Sqlite, calls[..i]);
    RunKeepsTimes(calls[..i]);
    RecoveredFromReserved(before, key, calls[i].now);
    var recovered := Recover(before, calls[i].now);
    ReconciledTable(recovered, key);
    more := [Reconcile(recovered[key])];
    assert calls[..i + 1][..i] == calls[..i];
    assert StateAfter(Sqlite, calls[..i + 1]) == recovered;
    StateAfterMore(calls[..i + 1], more[0]);
  }

  lemma ContinuationRecoversNoReserved(calls: seq<Call>, k: nat, more: seq<Call>)
    requires RecoversNoReserved(calls) && k <= |calls| && RecoversNothing(more)
    ensures RecoversNoReserved(calls[..k] + more)
  {
    var run := calls[..k] + more;
    assert forall i | k <= i < |run| :: run[i] == more[i - k] && !Recovers(run[i]);
    forall i | 0 <= i < |run| && Recovers(run[i])
      ensures NoneReserved(StateAfter(Sqlite, run[..i]))
    {
      assert run[..i] == calls[..i];
    }
  }

  /**
   For every run of SQLite calls: no recovery in it finds a Reserved record if and only if, wherever one
   stops it and whatever calls short of another recovery follow, every settled effect carries its
   authorization.
   */
  lemma AuthorizationSurvivesExactly(calls: seq<Call>)
    ensures RecoversNoReserved(calls) <==>
            forall k, more | 0 <= k <= |calls| && RecoversNothing(more) :: SettledAuthorized(StateAfter(Sqlite, calls[..k] + more))
  {
    hide StoreInv, NoneReserved, SettledAuthorized, StateAfter;
    if RecoversNoReserved(calls) {
      forall k, more | 0 <= k <= |calls| && RecoversNothing(more)
        ensures SettledAuthorized(StateAfter(Sqlite, calls[..k] + more))
      {
        ContinuationRecoversNoReserved(calls, k, more);
        RunKeepsAuthorization(calls[..k] + more);
        MemoryInvariantAuthorizes(StateAfter(Sqlite, calls[..k] + more));
      }
    } else {
      var i :| 0 <= i < |calls| && Recovers(calls[i]) && !NoneReserved(StateAfter(Sqlite, calls[..i]));
      var more := ReservedRecoveryLosesAuthorization(calls, i);
    }
  }

  // ---------------------------------------------------------------- an example

  function ExampleInput(): ReservationInput {
    var context := StatusContext("t", "h", "w", "r", "alice", "a", "k", "s", "adm-1");
    var scope := Scope("alice", CapabilityIdentity("cases.update", "1.0.0"), "case:42", "cases.update");
    ReservationInput("inv-1", ReservationKey(scope, "key-1"), "digest", context,
                     ReservationFacts("status-1", "adm-1", "g", "catalog", "1", "c", "r", "p", []))
  }

  function ExampleRecord(): StoredInvocation {
    var input := ExampleInput();
    StoredInvocation(input.invocationId, input.key, input.requestDigest, input.context, input.facts, "d", Reserved, [], 100, 100, 3700, None)
  }

  /** A crash between reservation and authorization, then reconciliation. */
  function InterruptedRun(): seq<Call> {
    assert !IsWhitespace("audit-1"[0]);
    [ ReserveCall(ExampleInput(), EffectDescriptor(ExampleInput().key.scope.capability, "d", Some(3600)), 100, 3700),
      ReopenCall(101),
      TransitionCall("inv-1", Transition(OutcomeUnknown, Succeeded("done"), Outcome("audit-1")), 102) ]
  }

  lemma ExampleIsReserved()
    ensures StateAfter(Sqlite, InterruptedRun()[..1]) == map[ExampleInput().key := ExampleRecord()]
  {
    var calls := InterruptedRun();
    assert !IsWhitespace("status-1"[0]) && !IsWhitespace("catalog"[0]) && !IsWhitespace("1"[0]);
    assert TryReserve(calls[0].input, calls[0].descriptor, 100, 3700) == Success(ExampleRecord());
    assert Place(Sqlite, map[], ExampleRecord()) == Success(Reservation(NewlyReserved, ExampleRecord()));
    assert Retained(map[], 100) == map[];
    assert calls[..1][..0] == [];
    assert Apply(Sqlite, map[], calls[0]) == map[ExampleInput().key := ExampleRecord()];
  }

  lemma ExampleIsRecovered()
    ensures StateAfter(Sqlite, InterruptedRun()[..2])
         == map[ExampleInput().key := ExampleRecord().(state := OutcomeUnknown, updatedAt := 101)]
  {
    ExampleIsReserved();
    var calls := InterruptedRun();
    var reserved := map[ExampleInput().key := ExampleRecord()];
    assert calls[..2][..1] == calls[..1];
    assert Recover(reserved, 101) == map[ExampleInput().key := ExampleRecord().(state := OutcomeUnknown, updatedAt := 101)];
  }

  /** On SQLite that run ends with a succeeded effect that no authorization entry is linked to. */
  lemma SucceededWithoutAuthorization()
    ensures
      var records := StateAfter(Sqlite, InterruptedRun());
      var key := ExampleInput().key;
      && key in records
      && records[key].state == Succeeded("done")
      && records[key].auditLinks == [AuditLink(OutcomeLink, "audit-1", 102)]
  {
    ExampleIsRecovered();
    var calls := InterruptedRun();
    var key := ExampleInput().key;
    var recovered := StateAfter(Sqlite, calls[..2]);
    TransitFound(Sqlite, recovered, "inv-1", key, calls[2].transition, 102);
    assert StateAfter(Sqlite, calls) == Apply(Sqlite, recovered, calls[2]);
  }
}
