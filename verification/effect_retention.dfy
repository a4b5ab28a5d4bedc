/**
 How long the record behind a settled answer stays: until a reservation at or after its retention deadline
 purges it, whatever else happens in the run.
 */
module EffectRetention {
  import opened Outcomes
  import opened Contract
  import opened InvocationRecords
  import opened EffectProtocol
  import opened EffectSafety

  // ---------------------------------------------------------------- what removes a settled record

  predicate FinalKept(before: Records, after: Records) {
    forall key | key in before && Final(before[key].state) :: key in after && after[key] == before[key]
  }

  lemma TransitKeepsFinal(backend: Backend, records: Records, id: string, t: InvocationTransition, now: Timestamp)
    requires StoreInv(backend, records)
    ensures FinalKept(records, Transit(backend, records, id, t, now).0)
  {
    hide StoreInv, Transit;
    if Transit(backend, records, id, t, now).1.Success? {
      TransitAt(backend, records, id, t, now);
    } else {
      TransitRefused(backend, records, id, t, now);
    }
  }

  lemma AbandonKeepsFinal(backend: Backend, records: Records, id: string, context: StatusContext, authorization: AbandonmentAuthorization, now: Timestamp)
    requires StoreInv(backend, records)
    ensures FinalKept(records, Abandon(backend, records, id, context, authorization, now).0)
  {
    hide StoreInv;
    if found :| Holds(records, id, found) {
      HasUniqueIds(backend, records);
      AbandonFound(backend, records, id, found, context, authorization, now);
    }
  }

  lemma ReopenKeepsFinal(backend: Backend, records: Records, now: Timestamp)
    ensures FinalKept(records, Reopen(backend, records, now))
  {}

  ghost predicate Keeps(w: World, after: World) {
    FinalKept(w.records, after.records) && after.serials == w.serials
  }

  lemma SwappedKeeps(backend: Backend, w: World, id: string, t: InvocationTransition, now: Timestamp, fate: Fate)
    requires StoreInv(backend, w.records)
    ensures Keeps(w, Swapped(backend, w, id, t, now, fate))
  {
    hide StoreInv, Transit;
    TransitKeepsFinal(backend, w.records, id, t, now);
  }

  lemma ClaimKeeps(backend: Backend, w: World, task: nat, now: Timestamp, fate: Fate)
    requires StoreInv(backend, w.records) && At(w, task) && w.tasks[task].pc.Claiming?
    ensures Keeps(w, Claimed(backend, w, task, now, fate))
  {
    hide StoreInv, Transit, Swapped, FinalKept;
    var t := ToPending(w.tasks[task].pc.expected, w.tasks[task].pc.authorization);
    NothingIsLost(w.records);
    if CorrespondingTransition(t) {
      SwappedKeeps(backend, w, w.tasks[task].job.input.invocationId, t, now, fate);
    }
  }

  lemma SettleKeeps(backend: Backend, w: World, task: nat, now: Timestamp, fate: Fate)
    requires StoreInv(backend, w.records) && At(w, task) && w.tasks[task].pc.Settling?
    ensures Keeps(w, SettledBy(backend, w, task, now, fate))
  {
    hide StoreInv, Transit, Swapped, FinalKept;
    var t := Transition(Pending, w.tasks[task].pc.prepared, Outcome(w.tasks[task].pc.outcome));
    NothingIsLost(w.records);
    if CorrespondingTransition(t) {
      SwappedKeeps(backend, w, w.tasks[task].job.input.invocationId, t, now, fate);
    }
  }

  lemma GiveUpKeeps(backend: Backend, w: World, task: nat, now: Timestamp, fate: Fate)
    requires StoreInv(backend, w.records) && At(w, task) && (w.tasks[task].pc.AuditFailed? || w.tasks[task].pc.SettleFailed?)
    ensures Keeps(w, GivenUp(backend, w, task, now, fate))
  {
    hide StoreInv, Swapped, FinalKept;
    var t := Transition(Pending, OutcomeUnknown, if w.tasks[task].pc.AuditFailed? then NoAudit else Outcome(w.tasks[task].pc.outcome));
    NothingIsLost(w.records);
    if CorrespondingTransition(t) {
      SwappedKeeps(backend, w, w.tasks[task].job.input.invocationId, t, now, fate);
    }
  }

  lemma SuspendKeeps(backend: Backend, w: World, task: nat, now: Timestamp, fate: Fate)
    requires StoreInv(backend, w.records) && At(w, task) && w.tasks[task].pc.Suspending?
    ensures Keeps(w, SuspendedBy(backend, w, task, now, fate))
  {
    hide StoreInv, Transit, Swapped, FinalKept;
    var t: InvocationTransition := Transition(Reserved, Suspended(w.tasks[task].pc.suspension), NoAudit);
    SwappedKeeps(backend, w, w.tasks[task].job.input.invocationId, t, now, fate);
  }

  lemma NothingIsLost(records: Records)
    ensures FinalKept(records, records)
  {}

  lemma ReserveKeepsRecord(backend: Backend, records: Records, input: ReservationInput, descriptor: EffectDescriptor, now: Timestamp, retentionUntil: Timestamp, key: ReservationKey)
    requires key in records && now < records[key].retentionUntil
    ensures
      var (after, reply) := Reserve(backend, records, input, descriptor, now, retentionUntil);
      && key in after && after[key] == records[key]
      && (reply.Success? && reply.value.kind.NewlyReserved? ==> input.key != key)
  {
    hide ScopeIsFenced, IdTaken, StatusIdTaken;
  }

  lemma ReservingKeeps(backend: Backend, w: World, task: nat, now: Timestamp, retentionUntil: Timestamp, fate: Fate, key: ReservationKey, serial: nat)
    requires At(w, task) && StoredAs(w, key, serial) && now < w.records[key].retentionUntil
    ensures
      var after := Reserving(backend, w, task, now, retentionUntil, fate);
      StoredAs(after, key, serial) && after.records[key] == w.records[key]
  {
    hide Reserve, AfterReserve;
    var job := w.tasks[task].job;
    ReserveKeepsRecord(backend, w.records, job.input, job.descriptor, now, retentionUntil, key);
    assert Placed(backend, w, job, now, retentionUntil).records[key] == w.records[key];
  }

  /** No step changes a settled record, and only a reservation at or after its deadline removes it. */
  lemma StepKeepsFinal(backend: Backend, w: World, step: Step, key: ReservationKey, serial: nat)
    requires StoreInv(backend, w.records) && StoredAs(w, key, serial) && Final(w.records[key].state)
    ensures
      var after := Next(backend, w, step);
      || (StoredAs(after, key, serial) && after.records[key] == w.records[key])
      || (step.ReserveStep? && step.now >= w.records[key].retentionUntil)
  {
    if step.ReserveStep? {
      hide StoreInv, Reserving;
      if At(w, step.task) && step.now < w.records[key].retentionUntil {
        ReservingKeeps(backend, w, step.task, step.now, step.retentionUntil, step.fate, key, serial);
      }
    } else {
      hide StoreInv, Next;
      OtherStepKeeps(backend, w, step);
    }
  }

  predicate ChangesNoTable(step: Step) {
    step.Spawn? || step.AppendAuthorization? || step.Execute? || step.AppendOutcome? || step.Drop?
  }

  lemma TablelessStepKeeps(backend: Backend, w: World, step: Step)
    requires ChangesNoTable(step)
    ensures Keeps(w, Next(backend, w, step))
  {}

  lemma OtherStepKeeps(backend: Backend, w: World, step: Step)
    requires StoreInv(backend, w.records) && !step.ReserveStep?
    ensures Keeps(w, Next(backend, w, step))
  {
    if ChangesNoTable(step) {
      hide StoreInv, Next, Keeps;
      TablelessStepKeeps(backend, w, step);
    } else {
      hide StoreInv, Next, Keeps;
      TableStepKeeps(backend, w, step);
    }
  }

  lemma TableStepKeeps(backend: Backend, w: World, step: Step)
    requires StoreInv(backend, w.records) && !step.ReserveStep? && !ChangesNoTable(step)
    ensures Keeps(w, Next(backend, w, step))
  {
    hide StoreInv, Transit, Abandon, Reopen, Claimed, SettledBy, SuspendedBy, GivenUp, FinalKept, Goto;
    NothingIsLost(w.records);
    match step
    case SuspendStep(task, now, fate) =>
      if At(w, task) && w.tasks[task].pc.Suspending? {
        SuspendKeeps(backend, w, task, now, fate);
      }
    case ClaimStep(task, now, fate) =>
      if At(w, task) && w.tasks[task].pc.Claiming? {
        ClaimKeeps(backend, w, task, now, fate);
      }
    case SettleStep(task, now, fate) =>
      if At(w, task) && w.tasks[task].pc.Settling? {
        SettleKeeps(backend, w, task, now, fate);
      }
    case GiveUp(task, now, fate) =>
      if At(w, task) && (w.tasks[task].pc.AuditFailed? || w.tasks[task].pc.SettleFailed?) {
        GiveUpKeeps(backend, w, task, now, fate);
      }
    case OtherTransition(id, t, now) => TransitKeepsFinal(backend, w.records, id, t, now);
    case OtherAbandon(id, context, authorization, now) => AbandonKeepsFinal(backend, w.records, id, context, authorization, now);
    case ReopenStep(now) => ReopenKeepsFinal(backend, w.records, now);
  }

  // ---------------------------------------------------------------- settled answers

  predicate AnsweredSettled(pc: Pc) {
    pc.Done? && pc.answer.Settled?
  }

  lemma SettlingStores(backend: Backend, w: World, task: nat, now: Timestamp, fate: Fate)
    requires WorldInv(backend, w) && At(w, task) && w.tasks[task].pc.Settling?
    requires AnsweredSettled(SettledBy(backend, w, task, now, fate).tasks[task].pc)
    ensures
      var after := SettledBy(backend, w, task, now, fate);
      exists key :: StoredAs(after, key, after.tasks[task].pc.answer.serial)
  {
    hide StoreInv, WaitingUnclaimed, ClaimsBacked, LogOk, TasksOk, Transit;
    var pc := w.tasks[task].pc;
    var id := w.tasks[task].job.input.invocationId;
    var t := Transition(Pending, pc.prepared, Outcome(pc.outcome));
    if CorrespondingTransition(t) && Applied(backend, w, id, t, now, fate) {
      SettledRecord(backend, w, id, t, now);
      var after := SettledBy(backend, w, task, now, fate);
      assert StoredAs(after, Located(w.records, id), after.tasks[task].pc.answer.serial);
    }
  }

  /** Nothing but this task moves, and not to a settled answer. */
  ghost predicate MovesElsewhere(w: World, after: World, task: nat) {
    task in after.tasks && after.tasks == w.tasks[task := after.tasks[task]] && !AnsweredSettled(after.tasks[task].pc)
  }

  lemma ReservingMovesElsewhere(backend: Backend, w: World, task: nat, now: Timestamp, retentionUntil: Timestamp, fate: Fate)
    requires At(w, task)
    ensures MovesElsewhere(w, Reserving(backend, w, task, now, retentionUntil, fate), task)
  {
    hide Reserve;
  }

  lemma SuspendingMovesElsewhere(backend: Backend, w: World, task: nat, now: Timestamp, fate: Fate)
    requires At(w, task) && w.tasks[task].pc.Suspending?
    ensures MovesElsewhere(w, SuspendedBy(backend, w, task, now, fate), task)
  {
    hide Transit;
  }

  lemma GivingUpMovesElsewhere(backend: Backend, w: World, task: nat, now: Timestamp, fate: Fate)
    requires At(w, task) && (w.tasks[task].pc.AuditFailed? || w.tasks[task].pc.SettleFailed?)
    ensures MovesElsewhere(w, GivenUp(backend, w, task, now, fate), task)
  {
    hide Transit;
  }

  lemma ClaimMovesElsewhere(backend: Backend, w: World, task: nat, now: Timestamp, fate: Fate)
    requires At(w, task) && w.tasks[task].pc.Claiming?
    ensures MovesElsewhere(w, Claimed(backend, w, task, now, fate), task)
  {
    hide Transit;
  }

  lemma SettlingMovesItsTask(backend: Backend, w: World, task: nat, now: Timestamp, fate: Fate)
    requires At(w, task) && w.tasks[task].pc.Settling?
    ensures
      var after := SettledBy(backend, w, task, now, fate);
      task in after.tasks && after.tasks == w.tasks[task := after.tasks[task]]
  {
    hide Transit, Holds, CorrespondingTransition;
  }

  /** A task answers Settled only in the step that settles its record. */
  lemma OnlySettlingAnswersSettled(backend: Backend, w: World, step: Step, task: nat)
    requires At(Next(backend, w, step), task) && AnsweredSettled(Next(backend, w, step).tasks[task].pc)
    ensures At(w, task)
    ensures Next(backend, w, step).tasks[task].pc == w.tasks[task].pc || (step.SettleStep? && step.task == task && w.tasks[task].pc.Settling?)
  {
    hide Next;
    if ChangesNoTable(step) {
      TablelessStepMoves(backend, w, step);
    } else {
      StoreCallMoves(backend, w, step);
    }
  }

  lemma TablelessStepMoves(backend: Backend, w: World, step: Step)
    requires ChangesNoTable(step)
    ensures
      var after := Next(backend, w, step);
      after.tasks == w.tasks || (step.task in after.tasks && !AnsweredSettled(after.tasks[step.task].pc)
                                 && after.tasks == w.tasks[step.task := after.tasks[step.task]])
  {
    hide FreshId, Recorded, Goto;
    match step
    case Spawn(_, _) =>
    case AppendAuthorization(task, recordId, fate) =>
      if At(w, task) && w.tasks[task].pc.Authorizing? {
        RecordedKeepsTasks(w, recordId, AuthorizationEntry, fate);
        GotoMoves(w, Recorded(w, recordId, AuthorizationEntry, fate), task,
                  if fate.Delivered? then Claiming(w.tasks[task].pc.expected, recordId) else Done(Refused));
      }
    case AppendOutcome(task, recordId, fate) =>
      if At(w, task) && w.tasks[task].pc.Executed? {
        var pc := w.tasks[task].pc;
        RecordedKeepsTasks(w, recordId, OutcomeEntry(pc.authorization), fate);
        GotoMoves(w, Recorded(w, recordId, OutcomeEntry(pc.authorization), fate), task,
                  if fate.Delivered? then Settling(pc.key, pc.serial, pc.authorization, pc.prepared, recordId)
                  else AuditFailed(pc.key, pc.serial, pc.authorization));
      }
    case Execute(task, prepared) =>
      if At(w, task) && w.tasks[task].pc.Executing? {
        var pc := w.tasks[task].pc;
        GotoMoves(w, w.(log := w.log + [Execution(pc.serial, task, pc.authorization)]), task,
                  Executed(pc.key, pc.serial, pc.authorization, prepared));
      }
    case Drop(task) =>
      if At(w, task) {
        GotoMoves(w, w, task, Done(Dropped));
      }
  }

  lemma RecordedKeepsTasks(w: World, recordId: string, entry: LedgerEntry, fate: Fate)
    ensures Recorded(w, recordId, entry, fate).tasks == w.tasks
  {}

  lemma GotoMoves(w: World, moved: World, task: nat, pc: Pc)
    requires At(w, task) && moved.tasks == w.tasks
    ensures
      var after := Goto(moved, task, pc);
      task in after.tasks && after.tasks[task].pc == pc && after.tasks == w.tasks[task := after.tasks[task]]
  {}

  /** What a step that calls the store does to the tasks. */
  lemma StoreCallMoves(backend: Backend, w: World, step: Step)
    requires !ChangesNoTable(step)
    ensures
      var after := Next(backend, w, step);
      || after.tasks == w.tasks
      || (step.SettleStep? && At(w, step.task) && w.tasks[step.task].pc.Settling?
          && step.task in after.tasks && after.tasks == w.tasks[step.task := after.tasks[step.task]])
      || (!step.ReopenStep? && !step.OtherTransition? && !step.OtherAbandon? && At(w, step.task) && MovesElsewhere(w, after, step.task))
  {
    hide Transit, Reserve, Abandon, Reopen, Claimed, SettledBy, Reserving, SuspendedBy, GivenUp, Goto, MovesElsewhere;
    match step
    case ReserveStep(mover, now, retentionUntil, fate) =>
      if At(w, mover) {
        ReservingMovesElsewhere(backend, w, mover, now, retentionUntil, fate);
      }
    case SuspendStep(mover, now, fate) =>
      if At(w, mover) && w.tasks[mover].pc.Suspending? {
        SuspendingMovesElsewhere(backend, w, mover, now, fate);
      }
    case ClaimStep(mover, now, fate) =>
      if At(w, mover) && w.tasks[mover].pc.Claiming? {
        ClaimMovesElsewhere(backend, w, mover, now, fate);
      }
    case SettleStep(mover, now, fate) =>
      if At(w, mover) && w.tasks[mover].pc.Settling? {
        SettlingMovesItsTask(backend, w, mover, now, fate);
      }
    case GiveUp(mover, now, fate) =>
      if At(w, mover) && (w.tasks[mover].pc.AuditFailed? || w.tasks[mover].pc.SettleFailed?) {
        GivingUpMovesElsewhere(backend, w, mover, now, fate);
      }
    case _ =>
  }

  /** Step k of a run purged the settled record of this serial: a reservation no earlier than its deadline. */
  ghost predicate PurgedAt(backend: Backend, steps: seq<Step>, k: nat, serial: nat) {
    && k < |steps| && steps[k].ReserveStep?
    && exists key ::
      var before := After(backend, steps[..k]);
      && StoredAs(before, key, serial) && Final(before.records[key].state) && steps[k].now >= before.records[key].retentionUntil
      && !StoredAs(After(backend, steps[..k + 1]), key, serial)
  }

  lemma PurgedEarlier(backend: Backend, steps: seq<Step>, last: nat, k: nat, serial: nat)
    requires last <= |steps| && PurgedAt(backend, steps[..last], k, serial)
    ensures PurgedAt(backend, steps, k, serial)
  {
    assert steps[..last][..k] == steps[..k] && steps[..last][..k + 1] == steps[..k + 1];
  }

  lemma StaysOrPurged(backend: Backend, steps: seq<Step>, key: ReservationKey, serial: nat)
    requires steps != []
    requires
      var before := After(backend, steps[..|steps| - 1]);
      WorldInv(backend, before) && StoredAs(before, key, serial) && Final(before.records[key].state)
    ensures StoredAs(After(backend, steps), key, serial) || PurgedAt(backend, steps, |steps| - 1, serial)
  {
    hide Next;
    assert steps[..|steps| - 1 + 1] == steps;
    StepKeepsFinal(backend, After(backend, steps[..|steps| - 1]), steps[|steps| - 1], key, serial);
  }

  /**
   The record behind a settled answer is stored for the rest of the run, or else it was until a reservation
   at or after its retention deadline removed it.
   */
  lemma {:induction false} SettledRecordsStayForRetention(backend: Backend, steps: seq<Step>, task: nat)
    requires ServiceRun(steps) && At(After(backend, steps), task) && AnsweredSettled(After(backend, steps).tasks[task].pc)
    ensures
      var serial := After(backend, steps).tasks[task].pc.answer.serial;
      || (exists key :: StoredAs(After(backend, steps), key, serial))
      || (exists k :: PurgedAt(backend, steps, k, serial))
    decreases |steps|
  {
    hide Next, StoreInv, WaitingUnclaimed, ClaimsBacked, LogOk, Numbered;
    var last := |steps| - 1;
    var before := After(backend, steps[..last]);
    EveryRunKeepsWorldInv(backend, steps[..last]);
    OnlySettlingAnswersSettled(backend, before, steps[last], task);
    var pc := After(backend, steps).tasks[task].pc;
    if before.tasks[task].pc == pc {
      SettledRecordsStayForRetention(backend, steps[..last], task);
      if key :| StoredAs(before, key, pc.answer.serial) {
        assert TaskOk(before, task, before.tasks[task].job.input.invocationId, pc);
        StaysOrPurged(backend, steps, key, pc.answer.serial);
      } else {
        var k :| PurgedAt(backend, steps[..last], k, pc.answer.serial);
        PurgedEarlier(backend, steps, last, k, pc.answer.serial);
      }
    } else {
      SettleStepIsNext(backend, before, steps[last]);
      SettlingStores(backend, before, task, steps[last].now, steps[last].fate);
    }
  }

  lemma SettleStepIsNext(backend: Backend, w: World, step: Step)
    requires step.SettleStep? && At(w, step.task) && w.tasks[step.task].pc.Settling?
    ensures Next(backend, w, step) == SettledBy(backend, w, step.task, step.now, step.fate)
  {}
}
