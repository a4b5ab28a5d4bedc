/**
 Resume tokens of crates/kiteframe-provider/src/invocation.rs: the `pending` map of the invocation service and
 the leases that `begin_resume` hands out. Every lock-protected section is one atomic step, and resumes of
 different requests interleave freely.
 */
module ResumeTokens {
  import opened Outcomes
  import opened InvocationRecords

  /** A suspension and a digest of the admission state it was made under. */
  datatype PendingSuspension = PendingSuspension(suspension: Suspension, snapshot: string)

  datatype SuspensionState = Waiting(pending: PendingSuspension) | InFlight

  datatype Lease = Lease(checkpoint: string, pending: PendingSuspension)

  datatype TokenError = NotPending | SuspensionMismatch | AlreadyInFlight | CheckpointCollision | IncompatibleState

  /** How a resumed validation ended: answered, failed for good, or failed and worth retrying. */
  datatype ResumeOutcome = Answered | FailedForGood | FailedRetryably

  type States = map<string, SuspensionState>

  // ---------------------------------------------------------------- the lock-protected sections

  function Begin(states: States, suspension: Suspension): (States, Result<Lease, TokenError>) {
    var checkpoint := suspension.checkpointRef;
    if checkpoint !in states then (states, Failure(NotPending))
    else
      match states[checkpoint]
      case InFlight => (states, Failure(AlreadyInFlight))
      case Waiting(pending) =>
        if pending.suspension != suspension then (states, Failure(SuspensionMismatch))
        else (states[checkpoint := InFlight], Success(Lease(checkpoint, pending)))
  }

  function Finish(states: States, lease: Lease, outcome: ResumeOutcome): States {
    if outcome.FailedRetryably? then states[lease.checkpoint := Waiting(lease.pending)]
    else states - {lease.checkpoint}
  }

  /** `restore_cancelled_resume`, when a lease is dropped unfinished. */
  function Restore(states: States, lease: Lease): States {
    if lease.checkpoint in states && states[lease.checkpoint].InFlight? then states[lease.checkpoint := Waiting(lease.pending)]
    else states
  }

  /** The end of `restore_durable_suspension`. */
  function RestoreDurable(states: States, pending: PendingSuspension): (States, Result<(), TokenError>) {
    var checkpoint := pending.suspension.checkpointRef;
    if checkpoint !in states then (states[checkpoint := Waiting(pending)], Success(()))
    else if states[checkpoint].Waiting? && states[checkpoint].pending.suspension == pending.suspension then (states, Success(()))
    else (states, Failure(IncompatibleState))
  }

  /** The end of a validation that suspends. */
  function Suspend(states: States, pending: PendingSuspension): (States, Result<(), TokenError>) {
    var checkpoint := pending.suspension.checkpointRef;
    if checkpoint in states then (states, Failure(CheckpointCollision))
    else (states[checkpoint := Waiting(pending)], Success(()))
  }

  // ---------------------------------------------------------------- interleavings

  datatype Tokens = Tokens(states: States, leases: map<nat, Lease>, next: nat)

  datatype Op =
    | BeginOp(suspension: Suspension)
    | FinishOp(lease: nat, outcome: ResumeOutcome)
    | DropOp(lease: nat)
    | RestoreDurableOp(pending: PendingSuspension)
    | SuspendOp(pending: PendingSuspension)

  /** A lease is consumed by finishing or dropping it; a new one gets the next number. */
  function Step(t: Tokens, op: Op): Tokens {
    match op
    case BeginOp(suspension) =>
      var (states, reply) := Begin(t.states, suspension);
      if reply.Success? then Tokens(states, t.leases[t.next := reply.value], t.next + 1) else t
    case FinishOp(lease, outcome) =>
      if lease in t.leases then t.(states := Finish(t.states, t.leases[lease], outcome), leases := t.leases - {lease}) else t
    case DropOp(lease) =>
      if lease in t.leases then t.(states := Restore(t.states, t.leases[lease]), leases := t.leases - {lease}) else t
    case RestoreDurableOp(pending) => t.(states := RestoreDurable(t.states, pending).0)
    case SuspendOp(pending) => t.(states := Suspend(t.states, pending).0)
  }

  function Run(t: Tokens, ops: seq<Op>): Tokens {
    if ops == [] then t else Step(Run(t, ops[..|ops| - 1]), ops[|ops| - 1])
  }

  const NO_TOKENS := Tokens(map[], map[], 0)

  predicate LeasedAt(t: Tokens, lease: nat, checkpoint: string) {
    lease in t.leases && t.leases[lease].checkpoint == checkpoint
  }

  ghost predicate InFlightIffLeased(t: Tokens, checkpoint: string) {
    (checkpoint in t.states && t.states[checkpoint].InFlight?) <==> exists lease: nat :: LeasedAt(t, lease, checkpoint)
  }

  /** A checkpoint is in flight exactly when a live lease for it exists, and then only one does. */
  ghost predicate Conserved(t: Tokens) {
    && (forall checkpoint: string :: InFlightIffLeased(t, checkpoint))
    && (forall a, b | a in t.leases && b in t.leases && t.leases[a].checkpoint == t.leases[b].checkpoint :: a == b)
    && (forall lease | lease in t.leases :: lease < t.next && t.leases[lease].pending.suspension.checkpointRef == t.leases[lease].checkpoint)
    && (forall checkpoint | checkpoint in t.states && t.states[checkpoint].Waiting? ::
          t.states[checkpoint].pending.suspension.checkpointRef == checkpoint)
  }

  lemma BeginConserves(t: Tokens, suspension: Suspension)
    requires Conserved(t)
    ensures Conserved(Step(t, BeginOp(suspension)))
  {
    var after := Step(t, BeginOp(suspension));
    if after != t {
      assert forall lease: nat | lease in t.leases :: LeasedAt(t, lease, t.leases[lease].checkpoint) && InFlightIffLeased(t, t.leases[lease].checkpoint);
      forall checkpoint: string
        ensures InFlightIffLeased(after, checkpoint)
      {
        assert InFlightIffLeased(t, checkpoint);
        if checkpoint == suspension.checkpointRef {
          assert LeasedAt(after, t.next, checkpoint);
        } else if lease: nat :| LeasedAt(t, lease, checkpoint) {
          assert LeasedAt(after, lease, checkpoint);
        } else if lease: nat :| LeasedAt(after, lease, checkpoint) {
          assert LeasedAt(t, lease, checkpoint);
        }
      }
    }
  }

  /** Consuming the lease of a checkpoint that is no longer in flight afterwards. */
  lemma ConsumeConserves(t: Tokens, lease: nat, states: States)
    requires Conserved(t) && lease in t.leases
    requires
      var checkpoint := t.leases[lease].checkpoint;
      states == t.states - {checkpoint} || states == t.states[checkpoint := Waiting(t.leases[lease].pending)]
    ensures Conserved(t.(states := states, leases := t.leases - {lease}))
  {
    var after := t.(states := states, leases := t.leases - {lease});
    forall checkpoint: string
      ensures InFlightIffLeased(after, checkpoint)
    {
      assert InFlightIffLeased(t, checkpoint);
      if checkpoint != t.leases[lease].checkpoint {
        if other: nat :| LeasedAt(t, other, checkpoint) {
          assert LeasedAt(after, other, checkpoint);
        } else if other: nat :| LeasedAt(after, other, checkpoint) {
          assert LeasedAt(t, other, checkpoint);
        }
      }
    }
  }

  /** Adding a waiting suspension at a checkpoint that had none. */
  lemma AddConserves(t: Tokens, pending: PendingSuspension)
    requires Conserved(t) && pending.suspension.checkpointRef !in t.states
    ensures Conserved(t.(states := t.states[pending.suspension.checkpointRef := Waiting(pending)]))
  {
    var after := t.(states := t.states[pending.suspension.checkpointRef := Waiting(pending)]);
    forall checkpoint: string
      ensures InFlightIffLeased(after, checkpoint)
    {
      assert InFlightIffLeased(t, checkpoint);
      assert forall lease :: LeasedAt(after, lease, checkpoint) <==> LeasedAt(t, lease, checkpoint);
    }
  }

  lemma StepConserves(t: Tokens, op: Op)
    requires Conserved(t)
    ensures Conserved(Step(t, op))
  {
    match op
    case BeginOp(suspension) => BeginConserves(t, suspension);
    case FinishOp(lease, outcome) =>
      if lease in t.leases {
        ConsumeConserves(t, lease, Finish(t.states, t.leases[lease], outcome));
      }
    case DropOp(lease) =>
      if lease in t.leases {
        assert LeasedAt(t, lease, t.leases[lease].checkpoint) && InFlightIffLeased(t, t.leases[lease].checkpoint);
        ConsumeConserves(t, lease, Restore(t.states, t.leases[lease]));
      }
    case RestoreDurableOp(pending) =>
      if pending.suspension.checkpointRef !in t.states {
        AddConserves(t, pending);
      }
    case SuspendOp(pending) =>
      if pending.suspension.checkpointRef !in t.states {
        AddConserves(t, pending);
      }
  }

  /** Over every interleaving. */
  lemma {:induction false} EveryInterleavingConserves(ops: seq<Op>)
    ensures Conserved(Run(NO_TOKENS, ops))
  {
    if ops != [] {
      EveryInterleavingConserves(ops[..|ops| - 1]);
      StepConserves(Run(NO_TOKENS, ops[..|ops| - 1]), ops[|ops| - 1]);
    }
  }

  /** The leases for a checkpoint. */
  ghost function LeasesFor(t: Tokens, checkpoint: string): set<nat> {
    set lease | lease in t.leases && t.leases[lease].checkpoint == checkpoint
  }

  /** A known checkpoint's pending suspension is in exactly one place, the map or one lease; an unknown one's is nowhere. */
  lemma HeldExactlyOnce(ops: seq<Op>, checkpoint: string)
    ensures
      var t := Run(NO_TOKENS, ops);
      var inMap := if checkpoint in t.states && t.states[checkpoint].Waiting? then 1 else 0;
      inMap + |LeasesFor(t, checkpoint)| == if checkpoint in t.states then 1 else 0
  {
    EveryInterleavingConserves(ops);
    var t := Run(NO_TOKENS, ops);
    assert InFlightIffLeased(t, checkpoint);
    if lease: nat :| LeasedAt(t, lease, checkpoint) {
      assert LeasesFor(t, checkpoint) == {lease};
    } else {
      assert LeasesFor(t, checkpoint) == {} by {
        forall lease | lease in LeasesFor(t, checkpoint)
          ensures false
        {
          assert LeasedAt(t, lease, checkpoint);
        }
      }
    }
  }

  /** Whether an operation consumes this lease. */
  predicate Consumes(op: Op, lease: nat) {
    (op.FinishOp? || op.DropOp?) && op.lease == lease
  }

  lemma StepKeepsLease(t: Tokens, op: Op, lease: nat)
    requires Conserved(t) && lease in t.leases && !Consumes(op, lease)
    ensures
      var after := Step(t, op);
      && lease in after.leases && after.leases[lease] == t.leases[lease]
      && t.leases[lease].checkpoint in after.states && after.states[t.leases[lease].checkpoint] == InFlight
  {
    assert LeasedAt(t, lease, t.leases[lease].checkpoint) && InFlightIffLeased(t, t.leases[lease].checkpoint);
  }

  /**
   Whatever happens to other checkpoints and to this one meanwhile, a lease that is dropped, or finished
   retryably, puts back exactly the suspension it took.
   */
  lemma {:induction false} LeaseReturnsWhatItTook(t: Tokens, lease: nat, ops: seq<Op>)
    requires Conserved(t) && lease in t.leases
    requires forall i | 0 <= i < |ops| :: !Consumes(ops[i], lease)
    ensures
      var later := Run(t, ops);
      var token := t.leases[lease];
      && Conserved(later)
      && lease in later.leases && later.leases[lease] == token
      && token.checkpoint in later.states && later.states[token.checkpoint] == InFlight
      && Step(later, DropOp(lease)).states == later.states[token.checkpoint := Waiting(token.pending)]
      && Step(later, FinishOp(lease, FailedRetryably)).states == later.states[token.checkpoint := Waiting(token.pending)]
    decreases |ops|
  {
    if ops == [] {
      assert LeasedAt(t, lease, t.leases[lease].checkpoint) && InFlightIffLeased(t, t.leases[lease].checkpoint);
    } else {
      var earlier := ops[..|ops| - 1];
      LeaseReturnsWhatItTook(t, lease, earlier);
      StepConserves(Run(t, earlier), ops[|ops| - 1]);
      StepKeepsLease(Run(t, earlier), ops[|ops| - 1], lease);
    }
  }

  /** Beginning a resume and returning its token at once changes nothing. */
  lemma BeginThenReturn(t: Tokens, suspension: Suspension)
    requires Conserved(t) && Begin(t.states, suspension).1.Success?
    ensures
      var begun := Step(t, BeginOp(suspension));
      && begun.states != t.states
      && Step(begun, DropOp(t.next)).states == t.states
      && Step(begun, FinishOp(t.next, FailedRetryably)).states == t.states
  {}

  // ---------------------------------------------------------------- what a resume is answered

  /** Only the waiting suspension itself can be resumed, and only once at a time. */
  lemma BeginAnswers(states: States, suspension: Suspension)
    ensures
      var checkpoint := suspension.checkpointRef;
      var (after, reply) := Begin(states, suspension);
      && (checkpoint !in states ==> reply == Failure(NotPending))
      && (checkpoint in states && states[checkpoint].InFlight? ==> reply == Failure(AlreadyInFlight))
      && (checkpoint in states && states[checkpoint].Waiting? ==>
            if states[checkpoint].pending.suspension == suspension then reply == Success(Lease(checkpoint, states[checkpoint].pending))
            else reply == Failure(SuspensionMismatch))
      && (if reply.Success? then after == states[checkpoint := InFlight] else after == states)
  {}

  /** Whether an operation makes a checkpoint pending. */
  predicate Registers(op: Op, checkpoint: string) {
    (op.SuspendOp? || op.RestoreDurableOp?) && op.pending.suspension.checkpointRef == checkpoint
  }

  lemma StepKeepsUnknown(t: Tokens, op: Op, checkpoint: string)
    requires Conserved(t) && checkpoint !in t.states && !Registers(op, checkpoint)
    ensures checkpoint !in Step(t, op).states
  {
    assert InFlightIffLeased(t, checkpoint);
    if (op.FinishOp? || op.DropOp?) && op.lease in t.leases {
      assert !LeasedAt(t, op.lease, checkpoint);
    }
  }

  lemma {:induction false} UnknownStaysUnknown(t: Tokens, checkpoint: string, ops: seq<Op>)
    requires Conserved(t) && checkpoint !in t.states
    requires forall i | 0 <= i < |ops| :: !Registers(ops[i], checkpoint)
    ensures Conserved(Run(t, ops)) && checkpoint !in Run(t, ops).states
    decreases |ops|
  {
    if ops != [] {
      var last := |ops| - 1;
      UnknownStaysUnknown(t, checkpoint, ops[..last]);
      StepConserves(Run(t, ops[..last]), ops[last]);
      StepKeepsUnknown(Run(t, ops[..last]), ops[last], checkpoint);
    }
  }

  /**
   A resume that was answered, or failed for good, uses its checkpoint up: whatever else happens, no resume of
   it can begin until it is recorded or restored again.
   */
  lemma FinishedIsUsedUp(t: Tokens, lease: nat, outcome: ResumeOutcome, ops: seq<Op>, suspension: Suspension)
    requires Conserved(t) && lease in t.leases && !outcome.FailedRetryably?
    requires suspension.checkpointRef == t.leases[lease].checkpoint
    requires forall i | 0 <= i < |ops| :: !Registers(ops[i], suspension.checkpointRef)
    ensures
      var later := Run(Step(t, FinishOp(lease, outcome)), ops);
      suspension.checkpointRef !in later.states && Begin(later.states, suspension).1 == Failure(NotPending)
  {
    StepConserves(t, FinishOp(lease, outcome));
    UnknownStaysUnknown(Step(t, FinishOp(lease, outcome)), suspension.checkpointRef, ops);
  }

  /** A waiting suspension waits until a resume of it begins. */
  lemma {:induction false} WaitsUntilBegun(t: Tokens, pending: PendingSuspension, ops: seq<Op>)
    requires Conserved(t) && pending.suspension.checkpointRef in t.states && t.states[pending.suspension.checkpointRef] == Waiting(pending)
    requires forall i | 0 <= i < |ops| :: ops[i] != BeginOp(pending.suspension)
    ensures
      var checkpoint := pending.suspension.checkpointRef;
      var later := Run(t, ops);
      && Conserved(later)
      && checkpoint in later.states && later.states[checkpoint] == Waiting(pending)
      && Begin(later.states, pending.suspension).1 == Success(Lease(checkpoint, pending))
    decreases |ops|
  {
    if ops != [] {
      var earlier, op := Run(t, ops[..|ops| - 1]), ops[|ops| - 1];
      WaitsUntilBegun(t, pending, ops[..|ops| - 1]);
      StepConserves(earlier, op);
      assert InFlightIffLeased(earlier, pending.suspension.checkpointRef);
      if (op.FinishOp? || op.DropOp?) && op.lease in earlier.leases {
        assert !LeasedAt(earlier, op.lease, pending.suspension.checkpointRef);
      }
    }
  }

  /** A suspension is recorded exactly at a checkpoint nobody knows; a durable one is restored there, or is already waiting. */
  lemma RegistrationAnswers(states: States, pending: PendingSuspension)
    ensures
      var checkpoint := pending.suspension.checkpointRef;
      var (suspended, reply) := Suspend(states, pending);
      var (restored, answer) := RestoreDurable(states, pending);
      && (reply.Success? <==> checkpoint !in states)
      && (answer.Success? <==> (checkpoint in states ==> states[checkpoint].Waiting? && states[checkpoint].pending.suspension == pending.suspension))
      && (checkpoint !in states ==> suspended == restored == states[checkpoint := Waiting(pending)])
      && (checkpoint in states ==> suspended == restored == states)
  {}

  ghost predicate WasRegistered(ops: seq<Op>, pending: PendingSuspension) {
    SuspendOp(pending) in ops || RestoreDurableOp(pending) in ops
  }

  ghost predicate AllRegistered(t: Tokens, ops: seq<Op>) {
    && (forall checkpoint | checkpoint in t.states && t.states[checkpoint].Waiting? :: WasRegistered(ops, t.states[checkpoint].pending))
    && (forall lease | lease in t.leases :: WasRegistered(ops, t.leases[lease].pending))
  }

  lemma StepKeepsRegistered(t: Tokens, ops: seq<Op>, op: Op)
    requires AllRegistered(t, ops)
    ensures AllRegistered(Step(t, op), ops + [op])
  {
    var after, more := Step(t, op), ops + [op];
    assert forall pending | WasRegistered(ops, pending) :: WasRegistered(more, pending);
    assert more[|ops|] == op;
    forall checkpoint | checkpoint in after.states && after.states[checkpoint].Waiting?
      ensures WasRegistered(more, after.states[checkpoint].pending)
    {
      if checkpoint in t.states && t.states[checkpoint] == after.states[checkpoint] {
        assert WasRegistered(ops, t.states[checkpoint].pending);
      }
    }
    forall lease | lease in after.leases
      ensures WasRegistered(more, after.leases[lease].pending)
    {
      if lease in t.leases && t.leases[lease] == after.leases[lease] {
        assert WasRegistered(ops, t.leases[lease].pending);
      } else {
        assert WasRegistered(ops, t.states[op.suspension.checkpointRef].pending);
      }
    }
  }

  /** Nothing is ever pending, in the map or in a lease, that was not recorded or restored. */
  lemma {:induction false} PendingWasRegistered(ops: seq<Op>)
    ensures AllRegistered(Run(NO_TOKENS, ops), ops)
  {
    if ops != [] {
      var last := |ops| - 1;
      PendingWasRegistered(ops[..last]);
      StepKeepsRegistered(Run(NO_TOKENS, ops[..last]), ops[..last], ops[last]);
      assert ops[..last] + [ops[last]] == ops;
    }
  }

  // ---------------------------------------------------------------- the service and its leases

  /** A lease owns its pending suspension until it is finished or dropped. */
  class ResumeLease {
    const checkpoint: string
    const number: nat
    var pending: Option<PendingSuspension>

    constructor (checkpoint: string, number: nat, pending: PendingSuspension)
      ensures this.checkpoint == checkpoint && this.number == number && this.pending == Some(pending)
    {
      this.checkpoint, this.number := checkpoint, number;
      this.pending := Some(pending);
    }
  }

  class SuspensionRegistry {
    var states: States
    ghost var live: map<nat, ResumeLease>
    var next: nat

    ghost predicate Valid()
      reads this, live.Values
    {
      && (forall number | number in live :: number < next && live[number].number == number && live[number].pending.Some?)
      && Conserved(Abstract())
    }

    ghost function Abstract(): Tokens
      reads this, live.Values
      requires forall number | number in live :: live[number].pending.Some?
    {
      Tokens(states, map number | number in live :: Lease(live[number].checkpoint, live[number].pending.value), next)
    }

    constructor ()
      ensures Valid() && live == map[] && Abstract() == NO_TOKENS
    {
      states, live, next := map[], map[], 0;
    }

    method BeginResume(suspension: Suspension) returns (r: Result<ResumeLease, TokenError>)
      requires Valid()
      modifies this
      ensures Valid() && Abstract() == Step(old(Abstract()), BeginOp(suspension))
      ensures r.Success? ==> fresh(r.value) && live == old(live)[old(next) := r.value] && r.value.number == old(next)
      ensures r.Failure? ==> live == old(live) && Begin(old(states), suspension).1 == Failure(r.error)
    {
      hide Conserved;
      StepConserves(Abstract(), BeginOp(suspension));
      var checkpoint := suspension.checkpointRef;
      if checkpoint !in states {
        return Failure(NotPending);
      }
      var state := states[checkpoint];
      if state.InFlight? {
        return Failure(AlreadyInFlight);
      }
      if state.pending.suspension != suspension {
        return Failure(SuspensionMismatch);
      }
      ghost var before := Abstract();
      states := states[checkpoint := InFlight];
      var lease := new ResumeLease(checkpoint, next, state.pending);
      live := live[next := lease];
      next := next + 1;
      assert Abstract().leases == before.leases[before.next := Lease(checkpoint, state.pending)];
      r := Success(lease);
    }

    /** `ResumeLease::finish`: the lease gives up its suspension, so dropping it afterwards does nothing. */
    method FinishResume(lease: ResumeLease, outcome: ResumeOutcome)
      requires Valid() && lease.number in live && live[lease.number] == lease
      modifies this, lease
      ensures Valid() && Abstract() == Step(old(Abstract()), FinishOp(lease.number, outcome))
      ensures live == old(live) - {lease.number} && lease.pending.None?
    {
      hide Conserved;
      StepConserves(Abstract(), FinishOp(lease.number, outcome));
      ghost var before := Abstract();
      var pending := lease.pending.value;
      lease.pending := None;
      live := live - {lease.number};
      if outcome.FailedRetryably? {
        states := states[lease.checkpoint := Waiting(pending)];
      } else {
        states := states - {lease.checkpoint};
      }
      assert forall number | number in live :: live[number] != lease;
      assert Abstract().leases == before.leases - {lease.number};
    }

    /** `Drop for ResumeLease`. */
    method DropLease(lease: ResumeLease)
      requires Valid() && (lease.pending.Some? ==> lease.number in live && live[lease.number] == lease)
      modifies this, lease
      ensures Valid() && lease.pending.None?
      ensures Abstract() == if old(lease.pending).Some? then Step(old(Abstract()), DropOp(lease.number)) else old(Abstract())
    {
      hide Conserved;
      if lease.pending.Some? {
        StepConserves(Abstract(), DropOp(lease.number));
        ghost var before := Abstract();
        var pending := lease.pending.value;
        lease.pending := None;
        live := live - {lease.number};
        if lease.checkpoint in states && states[lease.checkpoint].InFlight? {
          states := states[lease.checkpoint := Waiting(pending)];
        }
        assert forall number | number in live :: live[number] != lease;
        assert Abstract().leases == before.leases - {lease.number};
      }
    }

    method RestoreDurableSuspension(pending: PendingSuspension) returns (r: Result<(), TokenError>)
      requires Valid()
      modifies this
      ensures Valid() && Abstract() == Step(old(Abstract()), RestoreDurableOp(pending))
      ensures r == RestoreDurable(old(states), pending).1 && live == old(live)
    {
      hide Conserved;
      StepConserves(Abstract(), RestoreDurableOp(pending));
      ghost var before := Abstract();
      var checkpoint := pending.suspension.checkpointRef;
      if checkpoint !in states {
        states := states[checkpoint := Waiting(pending)];
        assert Abstract() == Step(before, RestoreDurableOp(pending));
        return Success(());
      }
      if states[checkpoint].Waiting? && states[checkpoint].pending.suspension == pending.suspension {
        return Success(());
      }
      r := Failure(IncompatibleState);
    }

    method RecordSuspension(pending: PendingSuspension) returns (r: Result<(), TokenError>)
      requires Valid()
      modifies this
      ensures Valid() && Abstract() == Step(old(Abstract()), SuspendOp(pending))
      ensures r == Suspend(old(states), pending).1 && live == old(live)
    {
      hide Conserved;
      StepConserves(Abstract(), SuspendOp(pending));
      ghost var before := Abstract();
      var checkpoint := pending.suspension.checkpointRef;
      if checkpoint in states {
        return Failure(CheckpointCollision);
      }
      states := states[checkpoint := Waiting(pending)];
      assert Abstract() == Step(before, SuspendOp(pending));
      r := Success(());
    }
  }
}
