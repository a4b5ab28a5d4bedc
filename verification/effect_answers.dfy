/**
 A suspension that a caller is told is stored is stored: in any interleaving, on either backend, at the step
 that tells it.
 */
module EffectAnswers {
  import opened Outcomes
  import opened Contract
  import opened InvocationRecords
  import opened InvocationAnswers
  import opened EffectProtocol
  import opened EffectSafety
  import opened EffectRetention

  /** A task on its way to suspend its record suspends it as its job says. */
  predicate SuspendsItsJob(task: Task) {
    task.pc.Suspending? ==> task.job.kind == JobKind.Suspend(task.pc.suspension)
  }

  ghost predicate AllSuspendTheirJobs(w: World) {
    forall task | task in w.tasks :: SuspendsItsJob(w.tasks[task])
  }

  /** The request's record, or the record of its key, is stored as suspended in the way the job says. */
  ghost predicate SuspensionHeld(w: World, job: Job) {
    && job.kind.Suspend?
    && exists key ::
         && key in w.records && w.records[key].state == Suspended(job.kind.suspension)
         && (w.records[key].invocationId == job.input.invocationId || key == job.input.key)
  }

  /** Where a step leaves its own task, as far as suspensions go. */
  ghost predicate LeavesTask(w: World, after: World, task: nat) {
    && task in w.tasks && task in after.tasks
    && after.tasks == w.tasks[task := after.tasks[task]]
    && after.tasks[task].job == w.tasks[task].job
    && SuspendsItsJob(after.tasks[task])
    && (after.tasks[task].pc == Done(SuspensionStored) ==> SuspensionHeld(after, w.tasks[task].job))
  }

  lemma FoundRecordIsStored(backend: Backend, records: Records, job: Job, now: Timestamp, retentionUntil: Timestamp)
    requires Reserve(backend, records, job.input, job.descriptor, now, retentionUntil).1.Success?
    ensures
      var (after, reply) := Reserve(backend, records, job.input, job.descriptor, now, retentionUntil);
      job.input.key in after && after[job.input.key] == reply.value.stored
  {
    ReserveEvolves(backend, records, job.input, job.descriptor, now, retentionUntil);
  }

  lemma GotoLeaves(w: World, moved: World, task: nat, pc: Pc)
    requires At(w, task) && moved.tasks == w.tasks
    requires SuspendsItsJob(Task(w.tasks[task].job, pc))
    requires pc == Done(SuspensionStored) ==> SuspensionHeld(moved, w.tasks[task].job)
    ensures LeavesTask(w, Goto(moved, task, pc), task)
  {
    hide SuspendsItsJob;
    HeldByRecords(moved, Goto(moved, task, pc), w.tasks[task].job);
    hide SuspensionHeld;
  }

  lemma ReservingLeaves(backend: Backend, w: World, task: nat, now: Timestamp, retentionUntil: Timestamp, fate: Fate)
    requires At(w, task)
    ensures LeavesTask(w, Reserving(backend, w, task, now, retentionUntil, fate), task)
  {
    hide Reserve, AfterReserve, Creates, SuspendsItsJob, SuspensionHeld, LeavesTask, Goto;
    var job := w.tasks[task].job;
    var placed := Placed(backend, w, job, now, retentionUntil);
    var reply := Reserve(backend, w.records, job.input, job.descriptor, now, retentionUntil).1;
    var serial := if job.input.key in placed.serials then placed.serials[job.input.key] else 0;
    if reply.Success? {
      FoundRecordIsStored(backend, w.records, job, now, retentionUntil);
    }
    RefusedLeaves(job);
    AfterReserveLeaves(placed, job, serial, reply);
    GotoLeaves(w, w, task, Done(Refused));
    GotoLeaves(w, placed, task, Done(Refused));
    GotoLeaves(w, placed, task, AfterReserve(job.kind, job.input.key, serial, reply));
  }

  lemma RefusedLeaves(job: Job)
    ensures SuspendsItsJob(Task(job, Done(Refused)))
  {}

  lemma HeldByRecords(w: World, other: World, job: Job)
    requires w.records == other.records
    ensures SuspensionHeld(w, job) <==> SuspensionHeld(other, job)
  {}

  /** A reservation's reply leads to suspending only a suspend job, and to its being stored only if it is. */
  lemma AfterReserveLeaves(placed: World, job: Job, serial: nat, reply: Result<Reservation, StoreError>)
    requires reply.Success? ==> job.input.key in placed.records && placed.records[job.input.key] == reply.value.stored
    ensures
      var pc := AfterReserve(job.kind, job.input.key, serial, reply);
      SuspendsItsJob(Task(job, pc)) && (pc == Done(SuspensionStored) ==> SuspensionHeld(placed, job))
  {}

  lemma SuspendingLeaves(backend: Backend, w: World, task: nat, now: Timestamp, fate: Fate)
    requires UniqueIds(w.records) && At(w, task) && w.tasks[task].pc.Suspending? && SuspendsItsJob(w.tasks[task])
    ensures LeavesTask(w, SuspendedBy(backend, w, task, now, fate), task)
  {
    hide Transit, UniqueIds, LeavesTask, Goto, SuspensionHeld;
    var job := w.tasks[task].job;
    var id := job.input.invocationId;
    var t: InvocationTransition := Transition(Reserved, Suspended(w.tasks[task].pc.suspension), NoAudit);
    var moved := Swapped(backend, w, id, t, now, fate);
    if Applied(backend, w, id, t, now, fate) {
      AppliedSuspends(backend, w, id, t, now, fate, job);
    }
    GotoLeaves(w, moved, task, Done(if Applied(backend, w, id, t, now, fate) && fate.Delivered? then SuspensionStored else Refused));
  }

  lemma AppliedSuspends(backend: Backend, w: World, id: string, t: InvocationTransition, now: Timestamp, fate: Fate, job: Job)
    requires UniqueIds(w.records) && Applied(backend, w, id, t, now, fate)
    requires job.kind.Suspend? && id == job.input.invocationId && t.next == Suspended(job.kind.suspension)
    ensures SuspensionHeld(Swapped(backend, w, id, t, now, fate), job)
  {
    hide Transit, MayMove, UniqueIds;
    TransitExactly(backend, w.records, id, t, now);
    var key :| key in w.records && w.records[key].invocationId == id;
    assert Swapped(backend, w, id, t, now, fate).records[key] == Moved(w.records[key], t, now);
  }

  lemma ClaimLeaves(backend: Backend, w: World, task: nat, now: Timestamp, fate: Fate)
    requires At(w, task) && w.tasks[task].pc.Claiming?
    ensures LeavesTask(w, Claimed(backend, w, task, now, fate), task)
  {
    hide Transit, Holds, CorrespondingTransition, SuspensionHeld, UniqueIds;
  }

  lemma SettlingLeaves(backend: Backend, w: World, task: nat, now: Timestamp, fate: Fate)
    requires At(w, task) && w.tasks[task].pc.Settling?
    ensures LeavesTask(w, SettledBy(backend, w, task, now, fate), task)
  {
    hide Transit, Holds, CorrespondingTransition, SuspensionHeld, UniqueIds;
  }

  lemma GivingUpLeaves(backend: Backend, w: World, task: nat, now: Timestamp, fate: Fate)
    requires At(w, task) && (w.tasks[task].pc.AuditFailed? || w.tasks[task].pc.SettleFailed?)
    ensures LeavesTask(w, GivenUp(backend, w, task, now, fate), task)
  {
    hide Transit;
  }

  lemma TablelessLeaves(backend: Backend, w: World, step: Step)
    requires ChangesNoTable(step) && !step.Spawn?
    ensures Next(backend, w, step).tasks == w.tasks || LeavesTask(w, Next(backend, w, step), step.task)
  {
    hide FreshId, SuspensionHeld;
  }

  ghost predicate OutsideTasks(step: Step) {
    step.ReopenStep? || step.OtherTransition? || step.OtherAbandon?
  }

  /** Every step of a task leaves it so; the rest leave tasks alone or start one. */
  lemma StepLeaves(backend: Backend, w: World, step: Step)
    requires UniqueIds(w.records) && AllSuspendTheirJobs(w) && !step.Spawn? && !OutsideTasks(step)
    ensures Next(backend, w, step).tasks == w.tasks || LeavesTask(w, Next(backend, w, step), step.task)
  {
    if ChangesNoTable(step) {
      hide Next;
      TablelessLeaves(backend, w, step);
    } else {
      hide Transit, Reserve, Reserving, SuspendedBy, Claimed, SettledBy, GivenUp, Goto, LeavesTask, UniqueIds;
      match step
      case ReserveStep(task, now, retentionUntil, fate) =>
        if At(w, task) {
          ReservingLeaves(backend, w, task, now, retentionUntil, fate);
        }
      case SuspendStep(task, now, fate) =>
        if At(w, task) && w.tasks[task].pc.Suspending? {
          SuspendingLeaves(backend, w, task, now, fate);
        }
      case ClaimStep(task, now, fate) =>
        if At(w, task) && w.tasks[task].pc.Claiming? {
          ClaimLeaves(backend, w, task, now, fate);
        }
      case SettleStep(task, now, fate) =>
        if At(w, task) && w.tasks[task].pc.Settling? {
          SettlingLeaves(backend, w, task, now, fate);
        }
      case GiveUp(task, now, fate) =>
        if At(w, task) && (w.tasks[task].pc.AuditFailed? || w.tasks[task].pc.SettleFailed?) {
          GivingUpLeaves(backend, w, task, now, fate);
        }
      case _ =>
    }
  }

  lemma OutsideStepsKeepTasks(backend: Backend, w: World, step: Step)
    requires OutsideTasks(step)
    ensures Next(backend, w, step).tasks == w.tasks
  {}

  lemma SpawnStartsIdle(backend: Backend, w: World, step: Step)
    requires step.Spawn?
    ensures
      var after := Next(backend, w, step);
      after.tasks == w.tasks || (step.task !in w.tasks && after.tasks == w.tasks[step.task := Task(step.job, Idle)])
  {}

  lemma NextKeepsSuspensions(backend: Backend, w: World, step: Step)
    requires UniqueIds(w.records) && AllSuspendTheirJobs(w)
    ensures AllSuspendTheirJobs(Next(backend, w, step))
    ensures forall task | task in Next(backend, w, step).tasks && Next(backend, w, step).tasks[task].pc == Done(SuspensionStored) ::
              || (task in w.tasks && w.tasks[task] == Next(backend, w, step).tasks[task])
              || SuspensionHeld(Next(backend, w, step), Next(backend, w, step).tasks[task].job)
  {
    hide Next, SuspensionHeld, UniqueIds;
    if step.Spawn? {
      SpawnStartsIdle(backend, w, step);
    } else if OutsideTasks(step) {
      OutsideStepsKeepTasks(backend, w, step);
    } else {
      StepLeaves(backend, w, step);
    }
  }

  lemma {:induction false} EveryRunSuspendsItsJobs(backend: Backend, steps: seq<Step>)
    requires ServiceRun(steps)
    ensures AllSuspendTheirJobs(After(backend, steps)) && UniqueIds(After(backend, steps).records)
    decreases |steps|
  {
    EveryRunKeepsWorldInv(backend, steps);
    if steps != [] {
      hide Next, WorldInv, StoreInv;
      var last := |steps| - 1;
      EveryRunSuspendsItsJobs(backend, steps[..last]);
      NextKeepsSuspensions(backend, After(backend, steps[..last]), steps[last]);
    }
  }

  /** Whatever else happens in the run: at the step after which a task answers that its suspension is stored, it is. */
  lemma StoredAnswersAreStored(backend: Backend, steps: seq<Step>, step: Step, task: nat)
    requires ServiceRun(steps)
    requires
      var after := Next(backend, After(backend, steps), step);
      && At(after, task) && after.tasks[task].pc == Done(SuspensionStored)
      && !(At(After(backend, steps), task) && After(backend, steps).tasks[task].pc == Done(SuspensionStored))
    ensures
      var after := Next(backend, After(backend, steps), step);
      SuspensionHeld(after, after.tasks[task].job)
  {
    hide Next, SuspensionHeld;
    EveryRunSuspendsItsJobs(backend, steps);
    NextKeepsSuspensions(backend, After(backend, steps), step);
  }
}
