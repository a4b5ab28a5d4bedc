/**
 Where the guarantees of the effect protocol end, and that they end exactly there.

 The transition table of crates/kiteframe-provider/src/status.rs permits returning a pending record to
 suspended, which the service never does: one caller doing it lets any resume of the request execute it a
 second time. And a settling transition whose reply is lost leaves a settled record behind an
 outcome-unknown answer.
 */
module EffectCounterexample {
  import opened Outcomes
  import opened Text
  import opened Contract
  import opened InvocationRecords
  import opened InvocationRetention
  import opened InvocationRecovery
  import opened EffectProtocol
  import opened EffectSafety

  // ---------------------------------------------------------------- steps on one record

  /** The record of this serial is stored as given, and is the only one with its ID. */
  ghost predicate Holding(w: World, key: ReservationKey, serial: nat, stored: StoredInvocation) {
    StoredAs(w, key, serial) && w.records[key] == stored && UniqueIds(w.records)
  }

  predicate InTime(backend: Backend, now: Timestamp) {
    backend.Sqlite? ==> now <= MAX_I64
  }

  lemma HeldIsLocated(w: World, key: ReservationKey, serial: nat, stored: StoredInvocation)
    requires Holding(w, key, serial, stored)
    ensures exists other :: Holds(w.records, stored.invocationId, other)
    ensures Located(w.records, stored.invocationId) == key
  {
    assert Holds(w.records, stored.invocationId, key);
  }

  lemma SwapsHeld(backend: Backend, w: World, key: ReservationKey, serial: nat, stored: StoredInvocation, t: InvocationTransition, now: Timestamp, next: StoredInvocation)
    requires Holding(w, key, serial, stored) && InTime(backend, now) && Swap(backend, stored, t, now) == Success(next)
    ensures Transit(backend, w.records, stored.invocationId, t, now) == (w.records[key := next], Success(()))
    ensures Holding(w.(records := w.records[key := next]), key, serial, next)
  {
    assert Holds(w.records, stored.invocationId, key);
    TransitFound(backend, w.records, stored.invocationId, key, t, now);
  }

  /** A new task that resumes the request of a suspended record is let through to authorization. */
  lemma ResumeProceeds(backend: Backend, w: World, key: ReservationKey, serial: nat, stored: StoredInvocation,
                       task: nat, job: Job, now: Timestamp, retentionUntil: Timestamp)
    requires Holding(w, key, serial, stored) && stored.state.Suspended? && !At(w, task)
    requires Resumes(backend, stored, key, job, now, retentionUntil)
    ensures
      var after := Next(backend, Next(backend, w, Spawn(task, job)), ReserveStep(task, now, retentionUntil, Delivered));
      && Holding(after, key, serial, stored)
      && after.tasks == w.tasks[task := Task(job, Authorizing(stored.state))]
      && after.log == w.log && after.ledger == w.ledger
  {
    assert job.kind == JobKind.Run(true) && job.input.key == key;
    hide Reserve, Resumes, UniqueIds, Placed, Next;
    var spawned := w.(tasks := w.tasks[task := Task(job, Idle)]);
    SpawnsAndReserves(backend, w, task, job, now, retentionUntil);
    FindsSuspended(backend, w.records, key, stored, job, now, retentionUntil);
    FindingPlacesNothing(backend, spawned, job, now, retentionUntil);
  }

  lemma SpawnsAndReserves(backend: Backend, w: World, task: nat, job: Job, now: Timestamp, retentionUntil: Timestamp)
    requires !At(w, task)
    ensures Next(backend, Next(backend, w, Spawn(task, job)), ReserveStep(task, now, retentionUntil, Delivered))
         == Reserving(backend, w.(tasks := w.tasks[task := Task(job, Idle)]), task, now, retentionUntil, Delivered)
  {
    hide Reserving;
  }

  lemma FindingPlacesNothing(backend: Backend, w: World, job: Job, now: Timestamp, retentionUntil: Timestamp)
    requires
      var reply := Reserve(backend, w.records, job.input, job.descriptor, now, retentionUntil).1;
      reply.Success? && reply.value.kind.Existing?
    ensures Placed(backend, w, job, now, retentionUntil)
         == w.(records := Reserve(backend, w.records, job.input, job.descriptor, now, retentionUntil).0)
  {
    hide Reserve;
  }

  /** A resume of the request that made this record, at a time when the store considers reservations. */
  predicate Resumes(backend: Backend, stored: StoredInvocation, key: ReservationKey, job: Job, now: Timestamp, retentionUntil: Timestamp) {
    && job.kind == JobKind.Run(true)
    && job.input.invocationId == stored.invocationId && job.input.key == key
    && job.input.context == stored.context && job.input.requestDigest == stored.requestDigest
    && Admissible(backend, ReserveCall(job.input, job.descriptor, now, retentionUntil))
  }

  lemma FindsSuspended(backend: Backend, records: Records, key: ReservationKey, stored: StoredInvocation, job: Job, now: Timestamp, retentionUntil: Timestamp)
    requires key in records && records[key] == stored && stored.state.Suspended? && UniqueIds(records)
    requires Resumes(backend, stored, key, job, now, retentionUntil)
    ensures
      var (after, reply) := Reserve(backend, records, job.input, job.descriptor, now, retentionUntil);
      && reply == Success(Reservation(Existing, stored))
      && key in after && after[key] == stored && UniqueIds(after)
  {}

  /** What a task needs to claim a waiting record under a new authorization entry. */
  ghost predicate MayClaim(backend: Backend, w: World, stored: StoredInvocation, authorization: string, now: Timestamp) {
    && Waiting(stored.state) && stored.updatedAt <= now && InTime(backend, now)
    && FreshId(w, authorization) && !Linked(stored.auditLinks, AuthorizationLink, authorization)
  }

  function ExecutingSteps(task: nat, authorization: string, now: Timestamp, prepared: Prepared): seq<Step> {
    [AppendAuthorization(task, authorization, Delivered), ClaimStep(task, now, Delivered), Execute(task, prepared)]
  }

  /** From authorization on, nothing stops a task whose record waits as it expects. */
  lemma AuthorizedTaskExecutes(backend: Backend, w: World, key: ReservationKey, serial: nat, stored: StoredInvocation,
                               task: nat, job: Job, authorization: string, now: Timestamp, prepared: Prepared)
    requires Holding(w, key, serial, stored) && MayClaim(backend, w, stored, authorization, now)
    requires At(w, task) && w.tasks[task] == Task(job, Authorizing(stored.state)) && job.input.invocationId == stored.invocationId
    ensures
      var after := Replay(backend, w, ExecutingSteps(task, authorization, now, prepared));
      && Holding(after, key, serial, ClaimedVersion(stored, authorization, now))
      && after.tasks == w.tasks[task := Task(job, Executed(key, serial, authorization, prepared))]
      && after.log == w.log + [Execution(serial, task, authorization)]
      && after.ledger == w.ledger[authorization := AuthorizationEntry]
      && after.operated == w.operated
  {
    hide Next, Holding;
    var append, claim, run := AppendAuthorization(task, authorization, Delivered), ClaimStep(task, now, Delivered), Execute(task, prepared);
    ThreeSteps(backend, w, append, claim, run);
    TaskAppends(backend, w, key, serial, stored, task, job, authorization);
    var appended := Next(backend, w, append);
    TaskClaims(backend, appended, key, serial, stored, task, job, authorization, now);
    TaskRuns(backend, Next(backend, appended, claim), key, serial, ClaimedVersion(stored, authorization, now), task, job, authorization, prepared);
  }

  lemma ThreeSteps(backend: Backend, w: World, one: Step, two: Step, three: Step)
    ensures Replay(backend, w, [one, two, three]) == Next(backend, Next(backend, Next(backend, w, one), two), three)
  {
    hide Next;
    assert [one, two, three] == [one] + [two] + [three];
    ReplaySingle(backend, w, one);
    ReplayMore(backend, w, [one], [two]);
    ReplaySingle(backend, Next(backend, w, one), two);
    ReplayMore(backend, w, [one] + [two], [three]);
    ReplaySingle(backend, Next(backend, Next(backend, w, one), two), three);
  }

  lemma TaskAppends(backend: Backend, w: World, key: ReservationKey, serial: nat, stored: StoredInvocation, task: nat, job: Job, authorization: string)
    requires Holding(w, key, serial, stored) && FreshId(w, authorization)
    requires At(w, task) && w.tasks[task] == Task(job, Authorizing(stored.state))
    ensures
      var after := Next(backend, w, AppendAuthorization(task, authorization, Delivered));
      && Holding(after, key, serial, stored)
      && after.tasks == w.tasks[task := Task(job, Claiming(stored.state, authorization))]
      && after.ledger == w.ledger[authorization := AuthorizationEntry]
      && after.log == w.log && after.operated == w.operated
  {}

  lemma TaskClaims(backend: Backend, w: World, key: ReservationKey, serial: nat, stored: StoredInvocation,
                   task: nat, job: Job, authorization: string, now: Timestamp)
    requires Holding(w, key, serial, stored) && Waiting(stored.state) && stored.updatedAt <= now && InTime(backend, now)
    requires !Blank(authorization) && !Linked(stored.auditLinks, AuthorizationLink, authorization)
    requires At(w, task) && w.tasks[task] == Task(job, Claiming(stored.state, authorization)) && job.input.invocationId == stored.invocationId
    ensures
      var after := Next(backend, w, ClaimStep(task, now, Delivered));
      && Holding(after, key, serial, ClaimedVersion(stored, authorization, now))
      && after.tasks == w.tasks[task := Task(job, Executing(key, serial, authorization))]
      && after.ledger == w.ledger && after.log == w.log && after.operated == w.operated
  {
    var t: InvocationTransition := ToPending(stored.state, authorization);
    assert Swap(backend, stored, t, now) == Success(ClaimedVersion(stored, authorization, now));
    SwapsHeld(backend, w, key, serial, stored, t, now, ClaimedVersion(stored, authorization, now));
    HeldIsLocated(w, key, serial, stored);
    ClaimStepClaims(backend, w, task, now);
    hide Transit, Swap, Claimed, Next, UniqueIds;
    ClaimedOf(backend, w, key, serial, task, t, now);
  }

  lemma ClaimStepClaims(backend: Backend, w: World, task: nat, now: Timestamp)
    requires At(w, task) && w.tasks[task].pc.Claiming?
    ensures Next(backend, w, ClaimStep(task, now, Delivered)) == Claimed(backend, w, task, now, Delivered)
  {}

  lemma ClaimedOf(backend: Backend, w: World, key: ReservationKey, serial: nat, task: nat, t: InvocationTransition, now: Timestamp)
    requires At(w, task) && w.tasks[task].pc.Claiming? && t == ToPending(w.tasks[task].pc.expected, w.tasks[task].pc.authorization)
    requires
      var id := w.tasks[task].job.input.invocationId;
      && (exists other :: Holds(w.records, id, other)) && Located(w.records, id) == key
      && Transit(backend, w.records, id, t, now).1.Success?
    requires StoredAs(w, key, serial)
    ensures
      var pc := w.tasks[task].pc;
      var records := Transit(backend, w.records, w.tasks[task].job.input.invocationId, t, now).0;
      Claimed(backend, w, task, now, Delivered)
      == Goto(w.(records := records, claims := w.claims[serial := Claim(task, pc.authorization)]), task, Executing(key, serial, pc.authorization))
  {
    hide Transit;
  }

  lemma TaskRuns(backend: Backend, w: World, key: ReservationKey, serial: nat, stored: StoredInvocation, task: nat, job: Job, authorization: string, prepared: Prepared)
    requires Holding(w, key, serial, stored)
    requires At(w, task) && w.tasks[task] == Task(job, Executing(key, serial, authorization))
    ensures
      var after := Next(backend, w, Execute(task, prepared));
      && Holding(after, key, serial, stored)
      && after.tasks == w.tasks[task := Task(job, Executed(key, serial, authorization, prepared))]
      && after.log == w.log + [Execution(serial, task, authorization)]
      && after.ledger == w.ledger && after.operated == w.operated
  {}

  // ---------------------------------------------------------------- reopening a pending record

  /** A caller of the store returns a record to suspended, and a resume of its request arrives. */
  function ReopenedAndResumed(id: string, t: InvocationTransition, reopenedAt: Timestamp, task: nat, job: Job, now: Timestamp,
                              retentionUntil: Timestamp, authorization: string, prepared: Prepared): seq<Step>
  {
    [OtherTransition(id, t, reopenedAt), Spawn(task, job), ReserveStep(task, now, retentionUntil, Delivered)]
    + ExecutingSteps(task, authorization, now, prepared)
  }

  /**
   Whatever world it happens in: once a pending record has been returned to suspended, any later resume of
   its request that the store considers executes its reservation, again if it had been executed before.
   */
  lemma ReopenedRecordsExecute(backend: Backend, w: World, key: ReservationKey, serial: nat, t: InvocationTransition, reopenedAt: Timestamp,
                               task: nat, job: Job, now: Timestamp, retentionUntil: Timestamp, authorization: string, prepared: Prepared)
    requires StoredAs(w, key, serial) && UniqueIds(w.records) && w.records[key].state.Pending? && t.next.Suspended?
    requires Transit(backend, w.records, w.records[key].invocationId, t, reopenedAt).1.Success?
    requires !At(w, task) && reopenedAt <= now && Resumes(backend, w.records[key], key, job, now, retentionUntil)
    requires FreshId(w, authorization) && !Linked(w.records[key].auditLinks, AuthorizationLink, authorization)
    ensures
      var steps := ReopenedAndResumed(w.records[key].invocationId, t, reopenedAt, task, job, now, retentionUntil, authorization, prepared);
      Replay(backend, w, steps).log == w.log + [Execution(serial, task, authorization)]
  {
    var stored := w.records[key];
    var reopened := stored.(state := t.next, updatedAt := reopenedAt);
    ReopeningSwaps(backend, w, key, serial, t, reopenedAt);
    hide Transit, Swap, Next, Replay, Holding, UniqueIds, Reserve;
    var other, spawn, reserve := OtherTransition(stored.invocationId, t, reopenedAt), Spawn(task, job), ReserveStep(task, now, retentionUntil, Delivered);
    var moved := Next(backend, w, other);
    ResumeProceeds(backend, moved, key, serial, reopened, task, job, now, retentionUntil);
    var resumed := Next(backend, Next(backend, moved, spawn), reserve);
    AuthorizedTaskExecutes(backend, resumed, key, serial, reopened, task, job, authorization, now, prepared);
    ThreeSteps(backend, w, other, spawn, reserve);
    ReplayMore(backend, w, [other, spawn, reserve], ExecutingSteps(task, authorization, now, prepared));
  }

  lemma ReopeningSwaps(backend: Backend, w: World, key: ReservationKey, serial: nat, t: InvocationTransition, now: Timestamp)
    requires StoredAs(w, key, serial) && UniqueIds(w.records) && t.next.Suspended?
    requires Transit(backend, w.records, w.records[key].invocationId, t, now).1.Success?
    ensures
      var stored := w.records[key];
      var reopened := stored.(state := t.next, updatedAt := now);
      var after := Next(backend, w, OtherTransition(stored.invocationId, t, now));
      && InTime(backend, now)
      && Holding(after, key, serial, reopened)
      && after.tasks == w.tasks && after.log == w.log && after.ledger == w.ledger
  {
    var stored := w.records[key];
    TransitFound(backend, w.records, stored.invocationId, key, t, now);
    assert stored.auditLinks + [] == stored.auditLinks;
    SwapsHeld(backend, w, key, serial, stored, t, now, stored.(state := t.next, updatedAt := now));
  }

  // ---------------------------------------------------------------- one execution, in full

  const CHECKPOINT := Suspension("checkpoint://1", "approval", "evidence-request://p", "p")

  function ExampleJob(resumed: bool): Job {
    Job(JobKind.Run(resumed), ExampleInput(), EffectDescriptor(ExampleInput().key.scope.capability, "d", Some(3600)))
  }

  function ExampleKey(): ReservationKey {
    ExampleInput().key
  }

  function FirstSteps(): seq<Step> {
    [Spawn(1, ExampleJob(false)), ReserveStep(1, 100, 3700, Delivered)] + ExecutingSteps(1, "a1", 101, Succeeded("done"))
  }

  lemma TwoSteps(backend: Backend, one: Step, two: Step)
    ensures After(backend, [one, two]) == Next(backend, Next(backend, Initial(), one), two)
  {
    hide Next;
    assert [one, two] == [one] + [two];
    AfterIsReplay(backend, [one, two]);
    ReplaySingle(backend, Initial(), one);
    ReplayMore(backend, Initial(), [one], [two]);
    ReplaySingle(backend, Next(backend, Initial(), one), two);
  }

  lemma AfterMore(backend: Backend, steps: seq<Step>, more: seq<Step>)
    ensures After(backend, steps + more) == Replay(backend, After(backend, steps), more)
  {
    AfterIsReplay(backend, steps + more);
    AfterIsReplay(backend, steps);
    ReplayMore(backend, Initial(), steps, more);
  }

  lemma ReserveFirst(backend: Backend)
    ensures Reserve(backend, map[], ExampleInput(), ExampleJob(false).descriptor, 100, 3700)
         == (map[ExampleKey() := ExampleRecord()], Success(Reservation(NewlyReserved, ExampleRecord())))
  {
    assert !IsWhitespace("status-1"[0]) && !IsWhitespace("catalog"[0]) && !IsWhitespace("1"[0]);
    assert TryReserve(ExampleInput(), ExampleJob(false).descriptor, 100, 3700) == Success(ExampleRecord());
    assert Place(backend, map[], ExampleRecord()) == Success(Reservation(NewlyReserved, ExampleRecord()));
    assert Retained(map[], 100) == map[];
  }

  lemma FirstTaskReserves(backend: Backend)
    ensures
      var w := After(backend, FirstSteps()[..2]);
      && Holding(w, ExampleKey(), 0, ExampleRecord())
      && w.tasks == map[1 := Task(ExampleJob(false), Authorizing(Reserved))]
      && w.log == [] && w.ledger == map[] && !w.operated
  {
    var spawn, reserve := Spawn(1, ExampleJob(false)), ReserveStep(1, 100, 3700, Delivered);
    assert FirstSteps()[..2] == [spawn, reserve];
    TwoSteps(backend, spawn, reserve);
    ReserveFirst(backend);
    hide Reserve, After;
  }

  /** The record once the first task has claimed it. */
  function FirstClaimed(): StoredInvocation {
    ClaimedVersion(ExampleRecord(), "a1", 101)
  }

  lemma FirstTaskExecutes(backend: Backend)
    ensures
      var w := After(backend, FirstSteps());
      && Holding(w, ExampleKey(), 0, FirstClaimed())
      && w.tasks == map[1 := Task(ExampleJob(false), Executed(ExampleKey(), 0, "a1", Succeeded("done")))]
      && w.log == [Execution(0, 1, "a1")] && w.ledger == map["a1" := AuthorizationEntry] && !w.operated
  {
    hide Next, After, Replay, Holding;
    FirstTaskReserves(backend);
    var reserved := After(backend, FirstSteps()[..2]);
    assert !IsWhitespace("a1"[0]);
    AuthorizedTaskExecutes(backend, reserved, ExampleKey(), 0, ExampleRecord(), 1, ExampleJob(false), "a1", 101, Succeeded("done"));
    assert FirstSteps() == FirstSteps()[..2] + ExecutingSteps(1, "a1", 101, Succeeded("done"));
    AfterMore(backend, FirstSteps()[..2], ExecutingSteps(1, "a1", 101, Succeeded("done")));
  }

  // ---------------------------------------------------------------- exactly which callers break at-most-once

  function ToSuspended(): InvocationTransition {
    Transition(Pending, Suspended(CHECKPOINT), NoAudit)
  }

  function SecondSteps(): seq<Step> {
    ReopenedAndResumed("inv-1", ToSuspended(), 102, 2, ExampleJob(true), 103, 3703, "a2", Succeeded("done"))
  }

  function DoubleRun(): seq<Step> {
    FirstSteps() + SecondSteps()
  }

  lemma ExampleResumes(backend: Backend)
    ensures Resumes(backend, FirstClaimed(), ExampleKey(), ExampleJob(true), 103, 3703)
  {
    assert !IsWhitespace("status-1"[0]) && !IsWhitespace("catalog"[0]) && !IsWhitespace("1"[0]);
    assert ValidInput(ExampleInput());
  }

  lemma ExampleReopens(backend: Backend, w: World)
    requires Holding(w, ExampleKey(), 0, FirstClaimed())
    ensures Transit(backend, w.records, "inv-1", ToSuspended(), 102).1.Success?
  {
    TransitFound(backend, w.records, "inv-1", ExampleKey(), ToSuspended(), 102);
  }

  /** A run that executes one reservation twice. */
  lemma ReopeningAllowsSecondExecution(backend: Backend)
    ensures After(backend, DoubleRun()).log == [Execution(0, 1, "a1"), Execution(0, 2, "a2")]
  {
    FirstTaskExecutes(backend);
    var w := After(backend, FirstSteps());
    ExampleResumes(backend);
    ExampleReopens(backend, w);
    assert !IsWhitespace("a2"[0]) && "a1" != "a2" by { assert "a1"[1] != "a2"[1]; }
    assert FirstClaimed().auditLinks == [AuditLink(AuthorizationLink, "a1", 101)];
    hide Next, After, Replay, Transit, Resumes;
    ReopenedRecordsExecute(backend, w, ExampleKey(), 0, ToSuspended(), 102, 2, ExampleJob(true), 103, 3703, "a2", Succeeded("done"));
    AfterMore(backend, FirstSteps(), SecondSteps());
  }

  /** Callers other than the service only issue transitions of these kinds. */
  ghost predicate Confined(steps: seq<Step>, kinds: set<(StateKind, StateKind)>) {
    forall i | 0 <= i < |steps| && steps[i].OtherTransition? ::
      (KindOf(steps[i].transition.expected), KindOf(steps[i].transition.next)) in kinds
  }

  ghost predicate ExecutesOnce(w: World) {
    forall i, j | 0 <= i < j < |w.log| :: w.log[i].serial != w.log[j].serial
  }

  lemma OnlyTheSixthStepIsForeign(k: nat)
    requires k < |DoubleRun()| && DoubleRun()[k].OtherTransition?
    ensures k == 5 && DoubleRun()[k].transition == ToSuspended()
  {
    var run := DoubleRun();
    assert run[0].Spawn? && run[1].ReserveStep? && run[2].AppendAuthorization? && run[3].ClaimStep? && run[4].Execute?;
    assert run[6].Spawn? && run[7].ReserveStep? && run[8].AppendAuthorization? && run[9].ClaimStep? && run[10].Execute?;
  }

  /**
   Whatever kinds of transition others may issue, at-most-once execution holds over all runs exactly when
   Pending to Suspended is not among them.
   */
  lemma AtMostOnceExactly(backend: Backend, kinds: set<(StateKind, StateKind)>)
    ensures (forall steps | Confined(steps, kinds) :: ExecutesOnce(After(backend, steps))) <==> (PendingKind, SuspendedKind) !in kinds
  {
    hide After;
    if (PendingKind, SuspendedKind) in kinds {
      forall k | 0 <= k < |DoubleRun()| && DoubleRun()[k].OtherTransition?
        ensures (KindOf(DoubleRun()[k].transition.expected), KindOf(DoubleRun()[k].transition.next)) in kinds
      {
        OnlyTheSixthStepIsForeign(k);
      }
      ReopeningAllowsSecondExecution(backend);
      var log := After(backend, DoubleRun()).log;
      assert log[0].serial == log[1].serial;
      assert Confined(DoubleRun(), kinds);
    } else {
      forall steps | Confined(steps, kinds)
        ensures ExecutesOnce(After(backend, steps))
      {
        EveryRunKeepsWorldInv(backend, steps);
      }
    }
  }

  // ---------------------------------------------------------------- a lost reply

  function LosingSteps(task: nat, outcome: string, settledAt: Timestamp, givenUpAt: Timestamp): seq<Step> {
    [AppendOutcome(task, outcome, Delivered), SettleStep(task, settledAt, ReplyLost), GiveUp(task, givenUpAt, Delivered)]
  }

  lemma TaskAppendsOutcome(backend: Backend, w: World, key: ReservationKey, serial: nat, stored: StoredInvocation,
                           task: nat, job: Job, authorization: string, prepared: Prepared, outcome: string)
    requires Holding(w, key, serial, stored) && FreshId(w, outcome)
    requires At(w, task) && w.tasks[task] == Task(job, Executed(key, serial, authorization, prepared))
    ensures
      var after := Next(backend, w, AppendOutcome(task, outcome, Delivered));
      && Holding(after, key, serial, stored)
      && after.tasks == w.tasks[task := Task(job, Settling(key, serial, authorization, prepared, outcome))]
      && after.operated == w.operated
  {}

  lemma TaskLosesReply(backend: Backend, w: World, key: ReservationKey, serial: nat, stored: StoredInvocation,
                       task: nat, job: Job, authorization: string, prepared: Prepared, outcome: string, now: Timestamp)
    requires Holding(w, key, serial, stored) && stored.state.Pending? && stored.updatedAt <= now && InTime(backend, now)
    requires !Blank(outcome) && !Linked(stored.auditLinks, OutcomeLink, outcome) && job.input.invocationId == stored.invocationId
    requires At(w, task) && w.tasks[task] == Task(job, Settling(key, serial, authorization, prepared, outcome))
    ensures
      var after := Next(backend, w, SettleStep(task, now, ReplyLost));
      && Holding(after, key, serial, SettledVersion(stored, prepared, outcome, now))
      && after.tasks == w.tasks[task := Task(job, SettleFailed(key, serial, authorization, prepared, outcome, true))]
      && after.operated == w.operated
  {
    var t: InvocationTransition := Transition(Pending, prepared, Outcome(outcome));
    assert Swap(backend, stored, t, now) == Success(SettledVersion(stored, prepared, outcome, now));
    SwapsHeld(backend, w, key, serial, stored, t, now, SettledVersion(stored, prepared, outcome, now));
    HeldIsLocated(w, key, serial, stored);
    hide Transit, Swap, UniqueIds;
    assert Next(backend, w, SettleStep(task, now, ReplyLost)) == SettledBy(backend, w, task, now, ReplyLost);
  }

  /** The last transition expects a pending record and no longer finds one. */
  lemma TaskGivesUpInVain(backend: Backend, w: World, key: ReservationKey, serial: nat, stored: StoredInvocation,
                          task: nat, job: Job, authorization: string, prepared: Prepared, outcome: string, now: Timestamp)
    requires Holding(w, key, serial, stored) && !stored.state.Pending? && job.input.invocationId == stored.invocationId
    requires At(w, task) && w.tasks[task] == Task(job, SettleFailed(key, serial, authorization, prepared, outcome, true))
    ensures
      var after := Next(backend, w, GiveUp(task, now, Delivered));
      && Holding(after, key, serial, stored)
      && after.tasks == w.tasks[task := Task(job, Done(Unknown(key, serial, authorization, Some(LostReply(prepared, outcome)))))]
      && after.operated == w.operated
  {
    if CorrespondingTransition(Transition(Pending, OutcomeUnknown, Outcome(outcome))) {
      assert Holds(w.records, stored.invocationId, key);
      TransitFound(backend, w.records, stored.invocationId, key, Transition(Pending, OutcomeUnknown, Outcome(outcome)), now);
    }
    hide Transit, UniqueIds;
    assert Next(backend, w, GiveUp(task, now, Delivered)) == GivenUp(backend, w, task, now, Delivered);
  }

  /** From any execution whose settling reply is lost, the task answers outcome-unknown over the record it settled. */
  lemma LostReplyHidesSettlement(backend: Backend, w: World, key: ReservationKey, serial: nat, stored: StoredInvocation,
                                 task: nat, job: Job, authorization: string, prepared: Prepared, outcome: string, settledAt: Timestamp, givenUpAt: Timestamp)
    requires Holding(w, key, serial, stored) && stored.state.Pending? && stored.updatedAt <= settledAt && InTime(backend, settledAt)
    requires FreshId(w, outcome) && !Linked(stored.auditLinks, OutcomeLink, outcome) && job.input.invocationId == stored.invocationId
    requires At(w, task) && w.tasks[task] == Task(job, Executed(key, serial, authorization, prepared))
    ensures
      var after := Replay(backend, w, LosingSteps(task, outcome, settledAt, givenUpAt));
      && Holding(after, key, serial, SettledVersion(stored, prepared, outcome, settledAt))
      && after.tasks == w.tasks[task := Task(job, Done(Unknown(key, serial, authorization, Some(LostReply(prepared, outcome)))))]
      && after.operated == w.operated
  {
    hide Next, Holding, Replay;
    var append, settle, giveUp := AppendOutcome(task, outcome, Delivered), SettleStep(task, settledAt, ReplyLost), GiveUp(task, givenUpAt, Delivered);
    ThreeSteps(backend, w, append, settle, giveUp);
    TaskAppendsOutcome(backend, w, key, serial, stored, task, job, authorization, prepared, outcome);
    var appended := Next(backend, w, append);
    TaskLosesReply(backend, appended, key, serial, stored, task, job, authorization, prepared, outcome, settledAt);
    TaskGivesUpInVain(backend, Next(backend, appended, settle), key, serial, SettledVersion(stored, prepared, outcome, settledAt),
                      task, job, authorization, prepared, outcome, givenUpAt);
  }

  function LostReplyRun(): seq<Step> {
    FirstSteps() + LosingSteps(1, "o1", 102, 103)
  }

  /** A run of the service alone whose task answers outcome-unknown while its record is stored as succeeded and fences nothing. */
  lemma UnknownAnswerOverSettledRecord(backend: Backend)
    ensures ServiceRun(LostReplyRun())
    ensures
      var w := After(backend, LostReplyRun());
      && !w.operated
      && w.tasks == map[1 := Task(ExampleJob(false), Done(Unknown(ExampleKey(), 0, "a1", Some(LostReply(Succeeded("done"), "o1")))))]
      && StoredAs(w, ExampleKey(), 0) && w.records[ExampleKey()].state == Succeeded("done")
      && !StillFences(w, 0)
  {
    hide Next, After, Replay, ServiceRun, UniqueIds, Linked, Blank, FirstSteps, LosingSteps;
    FirstTaskExecutes(backend);
    var w := After(backend, FirstSteps());
    OutcomeIsNew(backend);
    LostRunIsTheServices();
    LostReplyHidesSettlement(backend, w, ExampleKey(), 0, FirstClaimed(), 1, ExampleJob(false), "a1", Succeeded("done"), "o1", 102, 103);
    AfterMore(backend, FirstSteps(), LosingSteps(1, "o1", 102, 103));
    UnknownAnswersFenceExactly(backend, LostReplyRun(), 1);
  }

  lemma OutcomeIsNew(backend: Backend)
    ensures FreshId(After(backend, FirstSteps()), "o1") && !Linked(FirstClaimed().auditLinks, OutcomeLink, "o1")
    ensures FirstClaimed().state.Pending? && FirstClaimed().updatedAt == 101 && FirstClaimed().invocationId == "inv-1"
  {
    hide After;
    FirstTaskExecutes(backend);
    assert !IsWhitespace("o1"[0]);
    assert "a1" != "o1" by { assert "a1"[0] != "o1"[0]; }
    assert FirstClaimed().auditLinks == [AuditLink(AuthorizationLink, "a1", 101)];
  }

  lemma LostRunIsTheServices()
    ensures ServiceRun(LostReplyRun())
  {
    var run := LostReplyRun();
    assert run[0].Spawn? && run[1].ReserveStep? && run[2].AppendAuthorization? && run[3].ClaimStep? && run[4].Execute?;
    assert run[5].AppendOutcome? && run[6].SettleStep? && run[7].GiveUp?;
  }
}
