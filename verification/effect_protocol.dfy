/**
 The durable effect protocol of `execute_effect` and `persist_suspension`
 (crates/kiteframe-provider/src/invocation.rs) as a step system.

 Every store call, ledger append and execution of the operation is one atomic step of one task. Tasks
 interleave freely, may be dropped between any two steps, and may see a call fail before it took effect or
 lose its reply after it did. The store may be reopened, with recovery, at any moment, and callers other
 than the service may transition or abandon records.

 Ghost bookkeeping: every stored record has a serial number that is never reused, and a task that wins the
 compare-and-swap to Pending claims the serial.
 */
module EffectProtocol {
  import opened Outcomes
  import opened Text
  import opened Contract
  import opened InvocationRecords

  datatype JobKind = Run(resumed: bool) | Suspend(suspension: Suspension)

  datatype Job = Job(kind: JobKind, input: ReservationInput, descriptor: EffectDescriptor)

  /** What the operation's execution is prepared as: a safe result, a declared error, or an unknown outcome. */
  predicate IsPrepared(state: State) {
    state.Succeeded? || state.Failed? || state.OutcomeUnknown?
  }

  type Prepared = state: State | IsPrepared(state) witness OutcomeUnknown

  datatype LostReply = LostReply(state: Prepared, outcome: string)

  /**
   What a finished task answered. `Unknown` and `Settled` follow an execution; the rest executed nothing.
   `lost` is the state and the outcome entry of a settling transition that was applied although its reply was
   lost.
   `executed` is the serial the task executed, `serial` that of the record its settling transition changed.
   */
  datatype Answer =
    | Deferred
    | Refused
    | Dropped
    | SuspensionStored
    | UnknownExisting(key: ReservationKey, serial: nat)
    | Unknown(key: ReservationKey, serial: nat, authorization: string, lost: Option<LostReply>)
    | Settled(state: Prepared, executed: nat, serial: nat, authorization: string, outcome: string)

  datatype Pc =
    | Idle
    | Suspending(suspension: Suspension)
    | Authorizing(expected: State)
    | Claiming(expected: State, authorization: string)
    | Executing(key: ReservationKey, serial: nat, authorization: string)
    | Executed(key: ReservationKey, serial: nat, authorization: string, prepared: Prepared)
    | AuditFailed(key: ReservationKey, serial: nat, authorization: string)
    | Settling(key: ReservationKey, serial: nat, authorization: string, prepared: Prepared, outcome: string)
    | SettleFailed(key: ReservationKey, serial: nat, authorization: string, prepared: Prepared, outcome: string, replyLost: bool)
    | Done(answer: Answer)

  datatype Task = Task(job: Job, pc: Pc)

  datatype LedgerEntry = AuthorizationEntry | OutcomeEntry(authorization: string)

  datatype Claim = Claim(task: nat, authorization: string)

  datatype Execution = Execution(serial: nat, task: nat, authorization: string)

  datatype World = World(
    records: Records,
    serials: map<ReservationKey, nat>,
    next: nat,
    claims: map<nat, Claim>,
    ledger: map<string, LedgerEntry>,
    tasks: map<nat, Task>,
    log: seq<Execution>,
    operated: bool)

  /** How a call to the store or the ledger ends: answered, applied with the reply lost, or failed unapplied. */
  datatype Fate = Delivered | ReplyLost | NotApplied

  datatype Step =
    | Spawn(task: nat, job: Job)
    | ReserveStep(task: nat, now: Timestamp, retentionUntil: Timestamp, fate: Fate)
    | SuspendStep(task: nat, now: Timestamp, fate: Fate)
    | AppendAuthorization(task: nat, recordId: string, fate: Fate)
    | ClaimStep(task: nat, now: Timestamp, fate: Fate)
    | Execute(task: nat, prepared: Prepared)
    | AppendOutcome(task: nat, recordId: string, fate: Fate)
    | SettleStep(task: nat, now: Timestamp, fate: Fate)
    | GiveUp(task: nat, now: Timestamp, fate: Fate)
    | Drop(task: nat)
    | ReopenStep(now: Timestamp)
    | OtherTransition(invocationId: string, transition: InvocationTransition, now: Timestamp)
    | OtherAbandon(invocationId: string, context: StatusContext, authorization: AbandonmentAuthorization, now: Timestamp)

  function Initial(): World {
    World(map[], map[], 0, map[], map[], map[], [], false)
  }

  // ---------------------------------------------------------------- steps

  ghost predicate At(w: World, task: nat) {
    task in w.tasks
  }

  ghost function Goto(w: World, task: nat, pc: Pc): World
    requires At(w, task)
  {
    w.(tasks := w.tasks[task := w.tasks[task].(pc := pc)])
  }

  /** Where a reservation reply leads. An existing record is only taken up by a resume that finds it suspended. */
  function AfterReserve(kind: JobKind, key: ReservationKey, serial: nat, reply: Result<Reservation, StoreError>): Pc {
    if reply.Failure? then Done(Refused)
    else
      var state := reply.value.stored.state;
      match kind
      case Run(resumed) =>
        var resuming := resumed && state.Suspended?;
        if reply.value.kind.Existing? && !resuming then
          Done(if state.OutcomeUnknown? then UnknownExisting(key, serial) else Answer.Deferred)
        else Authorizing(if resuming then state else Reserved)
      case Suspend(suspension) =>
        if state == Suspended(suspension) then Done(SuspensionStored)
        else if state.Reserved? then Suspending(suspension)
        else Done(Refused)
  }

  ghost predicate Creates(backend: Backend, w: World, job: Job, now: Timestamp, retentionUntil: Timestamp) {
    var reply := Reserve(backend, w.records, job.input, job.descriptor, now, retentionUntil).1;
    reply.Success? && reply.value.kind.NewlyReserved?
  }

  /** The table after a reservation; a new record gets the next serial. */
  ghost function Placed(backend: Backend, w: World, job: Job, now: Timestamp, retentionUntil: Timestamp): World {
    var records := Reserve(backend, w.records, job.input, job.descriptor, now, retentionUntil).0;
    if Creates(backend, w, job, now, retentionUntil) then
      w.(records := records, serials := w.serials[job.input.key := w.next], next := w.next + 1)
    else w.(records := records)
  }

  ghost function Reserving(backend: Backend, w: World, task: nat, now: Timestamp, retentionUntil: Timestamp, fate: Fate): World
    requires At(w, task)
  {
    var job := w.tasks[task].job;
    var key := job.input.key;
    if fate.NotApplied? then Goto(w, task, Done(Refused))
    else
      var reply := Reserve(backend, w.records, job.input, job.descriptor, now, retentionUntil).1;
      var placed := Placed(backend, w, job, now, retentionUntil);
      var serial := if key in placed.serials then placed.serials[key] else 0;
      Goto(placed, task, if fate.ReplyLost? then Done(Refused) else AfterReserve(job.kind, key, serial, reply))
  }

  /** The table after a compare-and-swap that may not have been applied. */
  ghost function Swapped(backend: Backend, w: World, invocationId: string, t: InvocationTransition, now: Timestamp, fate: Fate): World {
    if fate.NotApplied? then w else w.(records := Transit(backend, w.records, invocationId, t, now).0)
  }

  ghost predicate Applied(backend: Backend, w: World, invocationId: string, t: InvocationTransition, now: Timestamp, fate: Fate) {
    !fate.NotApplied? && Transit(backend, w.records, invocationId, t, now).1.Success?
  }

  /** The key of the record with this ID. */
  ghost function Located(records: Records, invocationId: string): (key: ReservationKey)
    requires exists key :: Holds(records, invocationId, key)
    ensures Holds(records, invocationId, key)
  {
    var key :| Holds(records, invocationId, key);
    key
  }

  lemma AppliedIsLocated(backend: Backend, w: World, invocationId: string, t: InvocationTransition, now: Timestamp, fate: Fate)
    requires Applied(backend, w, invocationId, t, now, fate)
    ensures exists key :: Holds(w.records, invocationId, key)
  {}

  function ToPending(expected: State, authorization: string): (t: RawTransition) {
    Transition(expected, Pending, Authorization(authorization))
  }

  /** The record claimed under an authorization entry. */
  function ClaimedVersion(stored: StoredInvocation, authorization: string, now: Timestamp): StoredInvocation {
    stored.(state := Pending, updatedAt := now, auditLinks := stored.auditLinks + [AuditLink(AuthorizationLink, authorization, now)])
  }

  /** The record settled as the operation's result, with its outcome entry. */
  function SettledVersion(claimed: StoredInvocation, prepared: Prepared, outcome: string, now: Timestamp): StoredInvocation {
    claimed.(state := prepared, updatedAt := now, auditLinks := claimed.auditLinks + [AuditLink(OutcomeLink, outcome, now)])
  }

  ghost function Claimed(backend: Backend, w: World, task: nat, now: Timestamp, fate: Fate): World
    requires At(w, task) && w.tasks[task].pc.Claiming?
  {
    var pc := w.tasks[task].pc;
    var id := w.tasks[task].job.input.invocationId;
    var t := ToPending(pc.expected, pc.authorization);
    if CorrespondingTransition(t) && Applied(backend, w, id, t, now, fate) then
      AppliedIsLocated(backend, w, id, t, now, fate);
      var key := Located(w.records, id);
      var serial := if key in w.serials then w.serials[key] else 0;
      var swapped := Swapped(backend, w, id, t, now, fate).(claims := w.claims[serial := Claim(task, pc.authorization)]);
      Goto(swapped, task, if fate.Delivered? then Executing(key, serial, pc.authorization) else Done(Refused))
    else Goto(w, task, Done(Refused))
  }

  ghost function Recorded(w: World, recordId: string, entry: LedgerEntry, fate: Fate): World {
    if fate.NotApplied? then w else w.(ledger := w.ledger[recordId := entry])
  }

  /** `record_id` of a new entry: not blank, and never one the ledger has. */
  ghost predicate FreshId(w: World, recordId: string) {
    !Blank(recordId) && recordId !in w.ledger
  }

  ghost function SettledBy(backend: Backend, w: World, task: nat, now: Timestamp, fate: Fate): World
    requires At(w, task) && w.tasks[task].pc.Settling?
  {
    var pc := w.tasks[task].pc;
    var id := w.tasks[task].job.input.invocationId;
    var t := Transition(Pending, pc.prepared, Outcome(pc.outcome));
    if CorrespondingTransition(t) && Applied(backend, w, id, t, now, fate) then
      AppliedIsLocated(backend, w, id, t, now, fate);
      var key := Located(w.records, id);
      var serial := if key in w.serials then w.serials[key] else 0;
      var swapped := Swapped(backend, w, id, t, now, fate);
      if fate.ReplyLost? then Goto(swapped, task, SettleFailed(pc.key, pc.serial, pc.authorization, pc.prepared, pc.outcome, true))
      else if pc.prepared.OutcomeUnknown? then Goto(swapped, task, Done(Unknown(pc.key, pc.serial, pc.authorization, None)))
      else Goto(swapped, task, Done(Settled(pc.prepared, pc.serial, serial, pc.authorization, pc.outcome)))
    else Goto(w, task, SettleFailed(pc.key, pc.serial, pc.authorization, pc.prepared, pc.outcome, false))
  }

  /** The last transition of an uncertain effect; its result is ignored. */
  ghost function GivenUp(backend: Backend, w: World, task: nat, now: Timestamp, fate: Fate): World
    requires At(w, task) && (w.tasks[task].pc.AuditFailed? || w.tasks[task].pc.SettleFailed?)
  {
    var pc := w.tasks[task].pc;
    var id := w.tasks[task].job.input.invocationId;
    var t := Transition(Pending, OutcomeUnknown, if pc.AuditFailed? then NoAudit else Outcome(pc.outcome));
    var after := if CorrespondingTransition(t) then Swapped(backend, w, id, t, now, fate) else w;
    var lost := if pc.SettleFailed? && pc.replyLost then Some(LostReply(pc.prepared, pc.outcome)) else None;
    Goto(after, task, Done(Unknown(pc.key, pc.serial, pc.authorization, lost)))
  }

  ghost function SuspendedBy(backend: Backend, w: World, task: nat, now: Timestamp, fate: Fate): World
    requires At(w, task) && w.tasks[task].pc.Suspending?
  {
    var id := w.tasks[task].job.input.invocationId;
    var t: InvocationTransition := Transition(Reserved, Suspended(w.tasks[task].pc.suspension), NoAudit);
    var answer := if Applied(backend, w, id, t, now, fate) && fate.Delivered? then SuspensionStored else Refused;
    Goto(Swapped(backend, w, id, t, now, fate), task, Done(answer))
  }

  /** One step; a step whose task is elsewhere changes nothing. */
  ghost function Next(backend: Backend, w: World, step: Step): World {
    match step
    case Spawn(task, job) =>
      if At(w, task) then w else w.(tasks := w.tasks[task := Task(job, Idle)])
    case ReserveStep(task, now, retentionUntil, fate) =>
      if At(w, task) && w.tasks[task].pc.Idle? then Reserving(backend, w, task, now, retentionUntil, fate) else w
    case SuspendStep(task, now, fate) =>
      if At(w, task) && w.tasks[task].pc.Suspending? then SuspendedBy(backend, w, task, now, fate) else w
    case AppendAuthorization(task, recordId, fate) =>
      if At(w, task) && w.tasks[task].pc.Authorizing? && FreshId(w, recordId) then
        Goto(Recorded(w, recordId, AuthorizationEntry, fate), task,
             if fate.Delivered? then Claiming(w.tasks[task].pc.expected, recordId) else Done(Refused))
      else w
    case ClaimStep(task, now, fate) =>
      if At(w, task) && w.tasks[task].pc.Claiming? then Claimed(backend, w, task, now, fate) else w
    case Execute(task, prepared) =>
      if At(w, task) && w.tasks[task].pc.Executing? then
        var pc := w.tasks[task].pc;
        Goto(w.(log := w.log + [Execution(pc.serial, task, pc.authorization)]), task,
             Executed(pc.key, pc.serial, pc.authorization, prepared))
      else w
    case AppendOutcome(task, recordId, fate) =>
      if At(w, task) && w.tasks[task].pc.Executed? && FreshId(w, recordId) then
        var pc := w.tasks[task].pc;
        Goto(Recorded(w, recordId, OutcomeEntry(pc.authorization), fate), task,
             if fate.Delivered? then Settling(pc.key, pc.serial, pc.authorization, pc.prepared, recordId)
             else AuditFailed(pc.key, pc.serial, pc.authorization))
      else w
    case SettleStep(task, now, fate) =>
      if At(w, task) && w.tasks[task].pc.Settling? then SettledBy(backend, w, task, now, fate) else w
    case GiveUp(task, now, fate) =>
      if At(w, task) && (w.tasks[task].pc.AuditFailed? || w.tasks[task].pc.SettleFailed?) then GivenUp(backend, w, task, now, fate) else w
    case Drop(task) =>
      if At(w, task) && !w.tasks[task].pc.Done? then Goto(w, task, Done(Dropped)) else w
    case ReopenStep(now) =>
      w.(records := Reopen(backend, w.records, now))
    case OtherTransition(invocationId, t, now) =>
      w.(records := Transit(backend, w.records, invocationId, t, now).0, operated := true)
    case OtherAbandon(invocationId, context, authorization, now) =>
      w.(records := Abandon(backend, w.records, invocationId, context, authorization, now).0, operated := true)
  }

  ghost function After(backend: Backend, steps: seq<Step>): World {
    if steps == [] then Initial() else Next(backend, After(backend, steps[..|steps| - 1]), steps[|steps| - 1])
  }

  /** A run that continues from here. */
  ghost function Replay(backend: Backend, w: World, steps: seq<Step>): World {
    if steps == [] then w else Next(backend, Replay(backend, w, steps[..|steps| - 1]), steps[|steps| - 1])
  }

  lemma ReplaySingle(backend: Backend, w: World, step: Step)
    ensures Replay(backend, w, [step]) == Next(backend, w, step)
  {
    assert [step][..0] == [];
  }

  lemma ReplayMore(backend: Backend, w: World, steps: seq<Step>, more: seq<Step>)
    ensures Replay(backend, w, steps + more) == Replay(backend, Replay(backend, w, steps), more)
    decreases |more|
  {
    hide Next;
    if more == [] {
      assert steps + more == steps;
    } else {
      var last := |more| - 1;
      ReplayMore(backend, w, steps, more[..last]);
      assert (steps + more)[..|steps + more| - 1] == steps + more[..last];
    }
  }

  lemma {:induction false} AfterIsReplay(backend: Backend, steps: seq<Step>)
    ensures After(backend, steps) == Replay(backend, Initial(), steps)
    decreases |steps|
  {
    if steps != [] {
      AfterIsReplay(backend, steps[..|steps| - 1]);
    }
  }

  /** The service itself never returns a pending record to suspended, though the transition table permits it. */
  predicate NeverReopens(step: Step) {
    !(step.OtherTransition? && step.transition.expected.Pending? && step.transition.next.Suspended?)
  }

  ghost predicate ServiceRun(steps: seq<Step>) {
    forall i | 0 <= i < |steps| :: NeverReopens(steps[i])
  }
}
