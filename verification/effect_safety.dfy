/**
 Safety of the effect protocol over every run: at most one execution of each reservation, authorization
 written ahead of it, answers that agree with the durable record, and exactly which uncertain answers leave their
 scope fenced.
 */
module EffectSafety {
  import opened Outcomes
  import opened Contract
  import opened InvocationRecords
  import opened EffectProtocol

  // ---------------------------------------------------------------- how tables evolve

  predicate Waiting(state: State) {
    state.Reserved? || state.Suspended?
  }

  predicate Uncertain(state: State) {
    state.Pending? || state.OutcomeUnknown?
  }

  /** A later version of a record: links only grow, a final state stays, and nothing waits again. */
  predicate RecordEvolves(a: StoredInvocation, b: StoredInvocation) {
    && a.invocationId == b.invocationId
    && a.auditLinks <= b.auditLinks
    && (Final(a.state) ==> b == a)
    && (Waiting(b.state) ==> Waiting(a.state))
  }

  /** An uncertain record is stored afterwards and still uncertain; a known-unknown one is untouched. */
  predicate Kept(before: Records, after: Records, key: ReservationKey)
    requires key in before
  {
    && (before[key].state.Pending? ==> key in after && Uncertain(after[key].state))
    && (before[key].state.OutcomeUnknown? ==> key in after && after[key] == before[key])
  }

  ghost predicate TableEvolves(before: Records, after: Records, added: Option<ReservationKey>) {
    && (forall key | key in after && added != Some(key) :: key in before && RecordEvolves(before[key], after[key]))
    && (added.Some? ==> added.value in after && after[added.value].state.Reserved? && after[added.value].auditLinks == [])
    && (forall key | key in before && Fences(before[key].state) :: key in after && added != Some(key))
  }

  ghost predicate AllKept(before: Records, after: Records, touched: Option<ReservationKey>) {
    forall key | key in before && touched != Some(key) :: Kept(before, after, key)
  }

  lemma SwapEvolves(backend: Backend, stored: StoredInvocation, t: InvocationTransition, now: Timestamp)
    requires Swap(backend, stored, t, now).Success?
    requires !(t.expected.Pending? && t.next.Suspended?)
    ensures RecordEvolves(stored, Swap(backend, stored, t, now).value)
  {}

  lemma UpdateEvolves(records: Records, key: ReservationKey, next: StoredInvocation)
    requires key in records && RecordEvolves(records[key], next)
    ensures TableEvolves(records, records[key := next], None)
  {}

  lemma NothingEvolves(records: Records)
    ensures TableEvolves(records, records, None)
  {}

  lemma AbandonOneEvolves(backend: Backend, stored: StoredInvocation, context: StatusContext, authorization: AbandonmentAuthorization, now: Timestamp)
    requires AbandonOne(backend, stored, context, authorization, now).Success?
    ensures RecordEvolves(stored, AbandonOne(backend, stored, context, authorization, now).value)
  {}

  lemma TransitEvolves(backend: Backend, records: Records, id: string, t: InvocationTransition, now: Timestamp)
    requires StoreInv(backend, records)
    requires !(t.expected.Pending? && t.next.Suspended?)
    ensures
      var after := Transit(backend, records, id, t, now).0;
      && TableEvolves(records, after, None)
      && after.Keys == records.Keys
      && forall key | key in records && records[key].invocationId != id :: after[key] == records[key]
  {
    NothingEvolves(records);
    if key :| Holds(records, id, key) {
      TransitFound(backend, records, id, key, t, now);
      var swapped := Swap(backend, records[key], t, now);
      if swapped.Success? {
        SwapEvolves(backend, records[key], t, now);
        UpdateEvolves(records, key, swapped.value);
      }
    }
  }

  /** What a compare-and-swap that was applied did, at the key its ID locates. */
  lemma TransitAt(backend: Backend, records: Records, id: string, t: InvocationTransition, now: Timestamp)
    requires StoreInv(backend, records) && Transit(backend, records, id, t, now).1.Success?
    ensures exists key :: Holds(records, id, key)
    ensures
      var key := Located(records, id);
      var after := Transit(backend, records, id, t, now).0;
      && records[key].state == t.expected
      && key in after
      && after == records[key := after[key]]
      && after[key].state == t.next
      && after[key].invocationId == id
      && after[key].auditLinks == records[key].auditLinks + LinkOf(t.audit, now)
      && forall other | Holds(records, id, other) :: other == key
  {
    var key := Located(records, id);
    TransitFound(backend, records, id, key, t, now);
  }

  lemma PurgeEvolves(records: Records, now: Timestamp)
    ensures TableEvolves(records, Retained(records, now), None)
    ensures AllKept(records, Retained(records, now), None)
    ensures forall key | key in records && Fences(records[key].state) :: key in Retained(records, now)
  {}

  lemma InsertEvolves(records: Records, kept: Records, created: StoredInvocation)
    requires TableEvolves(records, kept, None) && AllKept(records, kept, None)
    requires created.key !in kept && created.state.Reserved? && created.auditLinks == []
    ensures TableEvolves(records, kept[created.key := created], Some(created.key))
    ensures AllKept(records, kept[created.key := created], None)
  {}

  lemma ReserveEvolves(backend: Backend, records: Records, input: ReservationInput, descriptor: EffectDescriptor, now: Timestamp, retentionUntil: Timestamp)
    ensures
      var (after, reply) := Reserve(backend, records, input, descriptor, now, retentionUntil);
      var created := reply.Success? && reply.value.kind.NewlyReserved?;
      && TableEvolves(records, after, if created then Some(input.key) else None)
      && AllKept(records, after, None)
      && (reply.Success? ==> input.key in after && after[input.key] == reply.value.stored)
  {
    var attempt := TryReserve(input, descriptor, now, retentionUntil);
    if attempt.Success? {
      var kept := Retained(records, now);
      PurgeEvolves(records, now);
      if attempt.value.key !in kept {
        InsertEvolves(records, kept, attempt.value);
      }
    }
  }

  lemma ReopenEvolves(backend: Backend, records: Records, now: Timestamp)
    ensures TableEvolves(records, Reopen(backend, records, now), None)
    ensures AllKept(records, Reopen(backend, records, now), None)
  {}

  lemma AbandonEvolves(backend: Backend, records: Records, id: string, context: StatusContext, authorization: AbandonmentAuthorization, now: Timestamp)
    requires StoreInv(backend, records)
    ensures TableEvolves(records, Abandon(backend, records, id, context, authorization, now).0, None)
  {
    NothingEvolves(records);
    if key :| Holds(records, id, key) {
      AbandonFound(backend, records, id, key, context, authorization, now);
      var abandoned := AbandonOne(backend, records[key], context, authorization, now);
      if abandoned.Success? {
        AbandonOneEvolves(backend, records[key], context, authorization, now);
        UpdateEvolves(records, key, abandoned.value);
      }
    }
  }

  // ---------------------------------------------------------------- the invariant

  ghost predicate Numbered(w: World) {
    && (forall key | key in w.records :: key in w.serials && w.serials[key] < w.next)
    && (forall a, b | a in w.records && b in w.records && w.serials[a] == w.serials[b] :: a == b)
    && (forall serial | serial in w.claims :: serial < w.next)
  }

  /** A waiting record has not been claimed. */
  ghost predicate WaitingUnclaimed(w: World) {
    forall key | key in w.records && key in w.serials && Waiting(w.records[key].state) :: w.serials[key] !in w.claims
  }

  ghost predicate IsAuthorization(w: World, recordId: string) {
    recordId in w.ledger && w.ledger[recordId].AuthorizationEntry?
  }

  /** Every claim rests on a durable authorization entry, and the claimed record links to it while stored. */
  ghost predicate ClaimsBacked(w: World) {
    && (forall serial | serial in w.claims :: IsAuthorization(w, w.claims[serial].authorization))
    && (forall key | key in w.records && key in w.serials && w.serials[key] in w.claims ::
          Linked(w.records[key].auditLinks, AuthorizationLink, w.claims[w.serials[key]].authorization))
  }

  ghost predicate Owns(w: World, task: nat, serial: nat, authorization: string) {
    serial in w.claims && w.claims[serial] == Claim(task, authorization)
  }

  ghost predicate Ran(w: World, task: nat, serial: nat, authorization: string) {
    Owns(w, task, serial, authorization) && Execution(serial, task, authorization) in w.log
  }

  ghost predicate StoredAs(w: World, key: ReservationKey, serial: nat) {
    key in w.records && key in w.serials && w.serials[key] == serial
  }

  /** Until someone else intervenes, the claimed record is stored and uncertain. */
  ghost predicate Held(w: World, id: string, key: ReservationKey, serial: nat) {
    w.operated || (StoredAs(w, key, serial) && w.records[key].invocationId == id && Uncertain(w.records[key].state))
  }

  predicate EndsWith(links: seq<AuditLink>, outcome: string) {
    links != [] && links[|links| - 1].kind.OutcomeLink? && links[|links| - 1].recordId == outcome
  }

  ghost predicate SettledOk(w: World, state: State, serial: nat, outcome: string) {
    && serial < w.next
    && forall key | StoredAs(w, key, serial) :: w.records[key].state == state && EndsWith(w.records[key].auditLinks, outcome)
  }

  /** Until someone else intervenes, what a lost reply settled stays settled, and fences if it is outcome-unknown. */
  ghost predicate LostOk(w: World, key: ReservationKey, serial: nat, lost: LostReply) {
    w.operated ||
    (&& SettledOk(w, lost.state, serial, lost.outcome)
     && (lost.state.OutcomeUnknown? ==> StoredAs(w, key, serial)))
  }

  ghost predicate NamesAuthorization(w: World, outcome: string, authorization: string) {
    outcome in w.ledger && w.ledger[outcome] == OutcomeEntry(authorization)
  }

  ghost predicate AnswerOk(w: World, task: nat, answer: Answer) {
    match answer
    case UnknownExisting(key, serial) =>
      w.operated || (StoredAs(w, key, serial) && w.records[key].state.OutcomeUnknown?)
    case Unknown(key, serial, authorization, lost) =>
      && Ran(w, task, serial, authorization)
      && (lost.None? ==> w.operated || (StoredAs(w, key, serial) && Uncertain(w.records[key].state)))
      && (lost.Some? ==> LostOk(w, key, serial, lost.value))
    case Settled(state, executed, serial, authorization, outcome) =>
      && Ran(w, task, executed, authorization)
      && Final(state)
      && SettledOk(w, state, serial, outcome)
      && NamesAuthorization(w, outcome, authorization)
      && (w.operated || executed == serial)
    case _ => true
  }

  ghost predicate TaskOk(w: World, task: nat, id: string, pc: Pc) {
    match pc
    case Claiming(_, authorization) => IsAuthorization(w, authorization)
    case Executing(key, serial, authorization) =>
      Owns(w, task, serial, authorization) && Held(w, id, key, serial)
    case Executed(key, serial, authorization, _) =>
      Ran(w, task, serial, authorization) && Held(w, id, key, serial)
    case AuditFailed(key, serial, authorization) =>
      Ran(w, task, serial, authorization) && Held(w, id, key, serial)
    case Settling(key, serial, authorization, _, outcome) =>
      Ran(w, task, serial, authorization) && Held(w, id, key, serial) && NamesAuthorization(w, outcome, authorization)
    case SettleFailed(key, serial, authorization, prepared, outcome, replyLost) =>
      && Ran(w, task, serial, authorization)
      && (if replyLost then LostOk(w, key, serial, LostReply(prepared, outcome)) else Held(w, id, key, serial))
    case Done(answer) => AnswerOk(w, task, answer)
    case _ => true
  }

  ghost predicate TasksOk(w: World) {
    forall task | task in w.tasks :: TaskOk(w, task, w.tasks[task].job.input.invocationId, w.tasks[task].pc)
  }

  predicate PastExecution(pc: Pc) {
    pc.Executed? || pc.AuditFailed? || pc.Settling? || pc.SettleFailed? || pc.Done?
  }

  /** Every logged execution is of a claimed serial, by the claiming task, which will not execute again. */
  ghost predicate LogOk(w: World) {
    && (forall i | 0 <= i < |w.log| ::
          && Owns(w, w.log[i].task, w.log[i].serial, w.log[i].authorization)
          && w.log[i].task in w.tasks
          && PastExecution(w.tasks[w.log[i].task].pc))
    && (forall i, j | 0 <= i < j < |w.log| :: w.log[i].serial != w.log[j].serial)
  }

  ghost predicate WorldInv(backend: Backend, w: World) {
    && StoreInv(backend, w.records)
    && Numbered(w)
    && WaitingUnclaimed(w)
    && ClaimsBacked(w)
    && TasksOk(w)
    && LogOk(w)
  }

  // ---------------------------------------------------------------- what a step leaves alone

  /**
   One step's effect on everything but the task that takes it. `added` is the key of a record it created,
   `touched` that of a pending record it settled.
   */
  ghost predicate Evolves(w: World, after: World, added: Option<ReservationKey>, touched: Option<ReservationKey>) {
    && TableEvolves(w.records, after.records, added)
    && (forall key | key in after.records && added != Some(key) :: key in w.serials && key in after.serials && after.serials[key] == w.serials[key])
    && (added.Some? ==> added.value in after.serials && after.serials[added.value] == w.next < after.next)
    && w.next <= after.next
    && (forall serial | serial in w.claims :: serial in after.claims && after.claims[serial] == w.claims[serial])
    && (forall recordId | recordId in w.ledger :: recordId in after.ledger && after.ledger[recordId] == w.ledger[recordId])
    && w.log <= after.log
    && (w.operated ==> after.operated)
    && (touched.Some? ==> touched.value in w.records && w.records[touched.value].state.Pending?)
    && (!after.operated ==> AllKept(w.records, after.records, touched))
  }

  lemma EvolvesKeepsNumbered(w: World, after: World, added: Option<ReservationKey>, touched: Option<ReservationKey>)
    requires Numbered(w) && Evolves(w, after, added, touched)
    requires forall serial | serial in after.claims :: serial < w.next
    ensures Numbered(after)
  {}

  lemma EvolvesKeepsWaiting(w: World, after: World, added: Option<ReservationKey>, touched: Option<ReservationKey>)
    requires Numbered(w) && WaitingUnclaimed(w) && Evolves(w, after, added, touched)
    requires after.claims == w.claims
    ensures WaitingUnclaimed(after)
  {}

  lemma LinkedGrows(links: seq<AuditLink>, grown: seq<AuditLink>, kind: LinkKind, recordId: string)
    requires links <= grown && Linked(links, kind, recordId)
    ensures Linked(grown, kind, recordId)
  {
    var i :| 0 <= i < |links| && links[i].kind == kind && links[i].recordId == recordId;
    assert grown[i] == links[i];
  }

  lemma EvolvesKeepsBacked(w: World, after: World, added: Option<ReservationKey>, touched: Option<ReservationKey>)
    requires Numbered(w) && ClaimsBacked(w) && Evolves(w, after, added, touched)
    requires after.claims == w.claims
    ensures ClaimsBacked(after)
  {
    forall key | key in after.records && key in after.serials && after.serials[key] in after.claims
      ensures Linked(after.records[key].auditLinks, AuthorizationLink, after.claims[after.serials[key]].authorization)
    {
      LinkedGrows(w.records[key].auditLinks, after.records[key].auditLinks, AuthorizationLink, w.claims[w.serials[key]].authorization);
    }
  }

  lemma EvolvesKeepsRan(w: World, after: World, added: Option<ReservationKey>, touched: Option<ReservationKey>, task: nat, serial: nat, authorization: string)
    requires Ran(w, task, serial, authorization) && Evolves(w, after, added, touched)
    ensures Ran(after, task, serial, authorization)
  {
    var i :| 0 <= i < |w.log| && w.log[i] == Execution(serial, task, authorization);
    assert after.log[i] == w.log[i];
  }

  lemma EvolvesKeepsHeld(w: World, after: World, added: Option<ReservationKey>, touched: Option<ReservationKey>, id: string, key: ReservationKey, serial: nat)
    requires Numbered(w) && Held(w, id, key, serial) && Evolves(w, after, added, touched)
    requires w.operated || touched != Some(key)
    ensures Held(after, id, key, serial)
  {}

  lemma EvolvesKeepsSettled(w: World, after: World, added: Option<ReservationKey>, touched: Option<ReservationKey>, state: State, serial: nat, outcome: string)
    requires Numbered(w) && SettledOk(w, state, serial, outcome) && Final(state) && Evolves(w, after, added, touched)
    ensures SettledOk(after, state, serial, outcome)
  {
    forall key | StoredAs(after, key, serial)
      ensures after.records[key].state == state && EndsWith(after.records[key].auditLinks, outcome)
    {
      assert StoredAs(w, key, serial);
    }
  }

  lemma EvolvesKeepsLost(w: World, after: World, added: Option<ReservationKey>, touched: Option<ReservationKey>, key: ReservationKey, serial: nat, lost: LostReply)
    requires Numbered(w) && LostOk(w, key, serial, lost) && Evolves(w, after, added, touched)
    ensures LostOk(after, key, serial, lost)
  {
    if !after.operated {
      forall other | StoredAs(after, other, serial)
        ensures after.records[other].state == lost.state && EndsWith(after.records[other].auditLinks, lost.outcome)
      {
        assert StoredAs(w, other, serial);
        assert Kept(w.records, after.records, other);
      }
    }
  }

  /** The key a task still counts on being uncertain. */
  function HeldKey(pc: Pc): Option<ReservationKey> {
    match pc
    case Executing(key, _, _) => Some(key)
    case Executed(key, _, _, _) => Some(key)
    case AuditFailed(key, _, _) => Some(key)
    case Settling(key, _, _, _, _) => Some(key)
    case SettleFailed(key, _, _, _, _, lost) => if lost then None else Some(key)
    case Done(Unknown(key, _, _, lost)) => if lost.Some? then None else Some(key)
    case _ => None
  }

  lemma EvolvesKeepsAnswer(w: World, after: World, added: Option<ReservationKey>, touched: Option<ReservationKey>, task: nat, answer: Answer)
    requires Numbered(w) && AnswerOk(w, task, answer) && Evolves(w, after, added, touched)
    requires w.operated || touched.None? || touched != HeldKey(Done(answer))
    ensures AnswerOk(after, task, answer)
  {
    match answer
    case Unknown(key, serial, authorization, lost) =>
      EvolvesKeepsRan(w, after, added, touched, task, serial, authorization);
      if lost.Some? {
        EvolvesKeepsLost(w, after, added, touched, key, serial, lost.value);
      }
    case Settled(state, executed, serial, authorization, outcome) =>
      EvolvesKeepsRan(w, after, added, touched, task, executed, authorization);
      EvolvesKeepsSettled(w, after, added, touched, state, serial, outcome);
    case _ =>
  }

  lemma EvolvesKeepsTask(w: World, after: World, added: Option<ReservationKey>, touched: Option<ReservationKey>, task: nat, id: string, pc: Pc)
    requires Numbered(w) && TaskOk(w, task, id, pc) && Evolves(w, after, added, touched)
    requires w.operated || touched.None? || touched != HeldKey(pc)
    ensures TaskOk(after, task, id, pc)
  {
    match pc
    case Executing(key, serial, authorization) =>
      EvolvesKeepsHeld(w, after, added, touched, id, key, serial);
    case Executed(key, serial, authorization, _) =>
      EvolvesKeepsHeld(w, after, added, touched, id, key, serial);
      EvolvesKeepsRan(w, after, added, touched, task, serial, authorization);
    case AuditFailed(key, serial, authorization) =>
      EvolvesKeepsHeld(w, after, added, touched, id, key, serial);
      EvolvesKeepsRan(w, after, added, touched, task, serial, authorization);
    case Settling(key, serial, authorization, _, outcome) =>
      EvolvesKeepsHeld(w, after, added, touched, id, key, serial);
      EvolvesKeepsRan(w, after, added, touched, task, serial, authorization);
    case SettleFailed(key, serial, authorization, prepared, outcome, replyLost) =>
      EvolvesKeepsRan(w, after, added, touched, task, serial, authorization);
      if replyLost {
        EvolvesKeepsLost(w, after, added, touched, key, serial, LostReply(prepared, outcome));
      } else {
        EvolvesKeepsHeld(w, after, added, touched, id, key, serial);
      }
    case Done(answer) =>
      EvolvesKeepsAnswer(w, after, added, touched, task, answer);
    case _ =>
  }

  // ---------------------------------------------------------------- every step keeps the invariant

  /** Two tasks never count on the same record. */
  lemma HoldersDiffer(w: World, one: nat, idOne: string, pcOne: Pc, other: nat, idOther: string, pcOther: Pc)
    requires !w.operated && TaskOk(w, one, idOne, pcOne) && TaskOk(w, other, idOther, pcOther)
    requires HeldKey(pcOne).Some? && HeldKey(pcOne) == HeldKey(pcOther)
    ensures one == other
  {}

  ghost predicate SameButTasks(w: World, after: World) {
    && after.records == w.records && after.serials == w.serials && after.next == w.next && after.claims == w.claims
    && after.ledger == w.ledger && after.log == w.log && after.operated == w.operated
  }

  lemma TaskOkReadsNoTasks(w: World, after: World, task: nat, id: string, pc: Pc)
    requires SameButTasks(w, after) && TaskOk(w, task, id, pc)
    ensures TaskOk(after, task, id, pc)
  {}

  lemma GotoKeepsTable(w: World, task: nat, pc: Pc)
    requires At(w, task) && Numbered(w) && WaitingUnclaimed(w) && ClaimsBacked(w)
    ensures Numbered(Goto(w, task, pc)) && WaitingUnclaimed(Goto(w, task, pc)) && ClaimsBacked(Goto(w, task, pc))
  {}

  lemma GotoKeepsLog(w: World, task: nat, pc: Pc)
    requires At(w, task) && LogOk(w) && (PastExecution(w.tasks[task].pc) ==> PastExecution(pc))
    ensures LogOk(Goto(w, task, pc))
  {}

  lemma EvolvesKeepsLog(w: World, moved: World, added: Option<ReservationKey>, touched: Option<ReservationKey>)
    requires LogOk(w) && Evolves(w, moved, added, touched) && moved.tasks == w.tasks && moved.log == w.log
    ensures LogOk(moved)
  {}

  /** A task's step keeps the invariant if its table is sound and its own next position is. */
  lemma TaskStepKeepsInv(backend: Backend, w: World, moved: World, added: Option<ReservationKey>, touched: Option<ReservationKey>, task: nat, pc: Pc)
    requires WorldInv(backend, w) && At(w, task) && moved.tasks == w.tasks && moved.log == w.log
    requires Evolves(w, moved, added, touched)
    requires StoreInv(backend, moved.records) && Numbered(moved) && WaitingUnclaimed(moved) && ClaimsBacked(moved)
    requires w.operated || touched.None? || touched == HeldKey(w.tasks[task].pc)
    requires TaskOk(moved, task, w.tasks[task].job.input.invocationId, pc)
    requires PastExecution(w.tasks[task].pc) ==> PastExecution(pc)
    ensures WorldInv(backend, Goto(moved, task, pc))
  {
    GotoKeepsTable(moved, task, pc);
    EvolvesKeepsLog(w, moved, added, touched);
    GotoKeepsLog(moved, task, pc);
    forall other | other in w.tasks && other != task
      ensures TaskOk(moved, other, w.tasks[other].job.input.invocationId, w.tasks[other].pc)
    {
      BystanderOk(w, moved, added, touched, task, other);
    }
    GotoKeepsTasks(moved, task, pc);
  }

  lemma GotoKeepsTasks(w: World, task: nat, pc: Pc)
    requires At(w, task) && TaskOk(w, task, w.tasks[task].job.input.invocationId, pc)
    requires forall other | other in w.tasks && other != task :: TaskOk(w, other, w.tasks[other].job.input.invocationId, w.tasks[other].pc)
    ensures TasksOk(Goto(w, task, pc))
  {
    var after := Goto(w, task, pc);
    forall other | other in after.tasks
      ensures TaskOk(after, other, after.tasks[other].job.input.invocationId, after.tasks[other].pc)
    {
      TaskOkReadsNoTasks(w, after, other, w.tasks[other].job.input.invocationId, if other == task then pc else w.tasks[other].pc);
    }
  }

  lemma BystanderOk(w: World, moved: World, added: Option<ReservationKey>, touched: Option<ReservationKey>, task: nat, other: nat)
    requires TasksOk(w) && Numbered(w) && At(w, task) && At(w, other) && other != task
    requires Evolves(w, moved, added, touched)
    requires w.operated || touched.None? || touched == HeldKey(w.tasks[task].pc)
    ensures TaskOk(moved, other, w.tasks[other].job.input.invocationId, w.tasks[other].pc)
  {
    var mine, theirs := w.tasks[task], w.tasks[other];
    if !w.operated && touched.Some? && touched == HeldKey(theirs.pc) {
      HoldersDiffer(w, task, mine.job.input.invocationId, mine.pc, other, theirs.job.input.invocationId, theirs.pc);
    }
    EvolvesKeepsTask(w, moved, added, touched, other, theirs.job.input.invocationId, theirs.pc);
  }

  /** A step outside every task. */
  lemma OutsideStepKeepsInv(backend: Backend, w: World, moved: World)
    requires WorldInv(backend, w) && moved.tasks == w.tasks && moved.log == w.log && moved.claims == w.claims
    requires Evolves(w, moved, None, None) && StoreInv(backend, moved.records)
    ensures WorldInv(backend, moved)
  {
    EvolvesKeepsNumbered(w, moved, None, None);
    EvolvesKeepsWaiting(w, moved, None, None);
    EvolvesKeepsBacked(w, moved, None, None);
    EvolvesKeepsLog(w, moved, None, None);
    forall task | task in moved.tasks
      ensures TaskOk(moved, task, moved.tasks[task].job.input.invocationId, moved.tasks[task].pc)
    {
      EvolvesKeepsTask(w, moved, None, None, task, w.tasks[task].job.input.invocationId, w.tasks[task].pc);
    }
  }

  lemma SpawnKeepsInv(backend: Backend, w: World, task: nat, job: Job)
    requires WorldInv(backend, w)
    ensures WorldInv(backend, Next(backend, w, Spawn(task, job)))
  {
    if !At(w, task) {
      var after := Next(backend, w, Spawn(task, job));
      forall other | other in after.tasks
        ensures TaskOk(after, other, after.tasks[other].job.input.invocationId, after.tasks[other].pc)
      {
        if other != task {
          TaskOkReadsNoTasks(w, after, other, w.tasks[other].job.input.invocationId, w.tasks[other].pc);
        }
      }
    }
  }

  /** A step that only moves a task. */
  lemma MoveKeepsInv(backend: Backend, w: World, task: nat, pc: Pc)
    requires WorldInv(backend, w) && At(w, task)
    requires TaskOk(w, task, w.tasks[task].job.input.invocationId, pc)
    requires PastExecution(w.tasks[task].pc) ==> PastExecution(pc)
    ensures WorldInv(backend, Goto(w, task, pc))
  {
    hide StoreInv, WaitingUnclaimed, ClaimsBacked, LogOk, TasksOk, TableEvolves;
    NothingEvolves(w.records);
    assert Evolves(w, w, None, None);
    TaskStepKeepsInv(backend, w, w, None, None, task, pc);
  }

  lemma ReservedTaskOk(moved: World, task: nat, id: string, kind: JobKind, key: ReservationKey, serial: nat, reply: Result<Reservation, StoreError>)
    requires reply.Success? ==> StoredAs(moved, key, serial) && moved.records[key] == reply.value.stored
    ensures TaskOk(moved, task, id, AfterReserve(kind, key, serial, reply))
  {}

  lemma PlacedEvolves(backend: Backend, w: World, job: Job, now: Timestamp, retentionUntil: Timestamp)
    requires Numbered(w)
    ensures Evolves(w, Placed(backend, w, job, now, retentionUntil),
                    if Creates(backend, w, job, now, retentionUntil) then Some(job.input.key) else None, None)
  {
    ReserveEvolves(backend, w.records, job.input, job.descriptor, now, retentionUntil);
  }

  lemma PlacedKeepsTable(backend: Backend, w: World, job: Job, now: Timestamp, retentionUntil: Timestamp)
    requires WorldInv(backend, w)
    ensures
      var moved := Placed(backend, w, job, now, retentionUntil);
      StoreInv(backend, moved.records) && Numbered(moved) && WaitingUnclaimed(moved) && ClaimsBacked(moved)
  {
    var moved := Placed(backend, w, job, now, retentionUntil);
    var added := if Creates(backend, w, job, now, retentionUntil) then Some(job.input.key) else None;
    ReserveKeepsInv(backend, w.records, job.input, job.descriptor, now, retentionUntil);
    PlacedEvolves(backend, w, job, now, retentionUntil);
    EvolvesKeepsNumbered(w, moved, added, None);
    EvolvesKeepsWaiting(w, moved, added, None);
    EvolvesKeepsBacked(w, moved, added, None);
  }

  lemma PlacedHolds(backend: Backend, w: World, job: Job, now: Timestamp, retentionUntil: Timestamp)
    requires Numbered(w)
    ensures
      var reply := Reserve(backend, w.records, job.input, job.descriptor, now, retentionUntil).1;
      var moved := Placed(backend, w, job, now, retentionUntil);
      reply.Success? ==> job.input.key in moved.serials && StoredAs(moved, job.input.key, moved.serials[job.input.key])
                         && moved.records[job.input.key] == reply.value.stored
  {
    ReserveEvolves(backend, w.records, job.input, job.descriptor, now, retentionUntil);
    PlacedEvolves(backend, w, job, now, retentionUntil);
  }

  lemma PlacedStepKeepsInv(backend: Backend, w: World, task: nat, now: Timestamp, retentionUntil: Timestamp, pc: Pc)
    requires WorldInv(backend, w) && At(w, task) && w.tasks[task].pc.Idle?
    requires
      var job := w.tasks[task].job;
      TaskOk(Placed(backend, w, job, now, retentionUntil), task, job.input.invocationId, pc)
    ensures WorldInv(backend, Goto(Placed(backend, w, w.tasks[task].job, now, retentionUntil), task, pc))
  {
    hide StoreInv, WaitingUnclaimed, ClaimsBacked, LogOk, Evolves, Reserve;
    var job := w.tasks[task].job;
    var added := if Creates(backend, w, job, now, retentionUntil) then Some(job.input.key) else None;
    PlacedEvolves(backend, w, job, now, retentionUntil);
    PlacedKeepsTable(backend, w, job, now, retentionUntil);
    TaskStepKeepsInv(backend, w, Placed(backend, w, job, now, retentionUntil), added, None, task, pc);
  }

  lemma ReserveStepKeepsInv(backend: Backend, w: World, task: nat, now: Timestamp, retentionUntil: Timestamp, fate: Fate)
    requires WorldInv(backend, w) && At(w, task) && w.tasks[task].pc.Idle?
    ensures WorldInv(backend, Reserving(backend, w, task, now, retentionUntil, fate))
  {
    if fate.NotApplied? {
      MoveKeepsInv(backend, w, task, Done(Refused));
    } else if fate.ReplyLost? {
      PlacedStepKeepsInv(backend, w, task, now, retentionUntil, Done(Refused));
    } else {
      var job := w.tasks[task].job;
      var key := job.input.key;
      var reply := Reserve(backend, w.records, job.input, job.descriptor, now, retentionUntil).1;
      var moved := Placed(backend, w, job, now, retentionUntil);
      var serial := if key in moved.serials then moved.serials[key] else 0;
      PlacedHolds(backend, w, job, now, retentionUntil);
      ReservedTaskOk(moved, task, job.input.invocationId, job.kind, key, serial, reply);
      PlacedStepKeepsInv(backend, w, task, now, retentionUntil, AfterReserve(job.kind, key, serial, reply));
    }
  }

  lemma TransitRefused(backend: Backend, records: Records, id: string, t: InvocationTransition, now: Timestamp)
    requires Transit(backend, records, id, t, now).1.Failure?
    ensures Transit(backend, records, id, t, now).0 == records
  {}

  lemma TransitKeepsUncertain(backend: Backend, records: Records, id: string, t: InvocationTransition, now: Timestamp)
    requires StoreInv(backend, records)
    requires t.expected.Reserved? || t.expected.Suspended? || (t.expected.Pending? && t.next.OutcomeUnknown?)
    ensures AllKept(records, Transit(backend, records, id, t, now).0, None)
  {
    hide StoreInv, Transit;
    if Transit(backend, records, id, t, now).1.Success? {
      TransitAt(backend, records, id, t, now);
    } else {
      TransitRefused(backend, records, id, t, now);
    }
  }

  /** A change of the table alone, in which no record appears. */
  lemma TableStepEvolves(w: World, records: Records, touched: Option<ReservationKey>, operated: bool)
    requires Numbered(w) && TableEvolves(w.records, records, None) && (w.operated ==> operated)
    requires touched.Some? ==> touched.value in w.records && w.records[touched.value].state.Pending?
    requires operated || AllKept(w.records, records, touched)
    ensures Evolves(w, w.(records := records, operated := operated), None, touched)
  {}

  /** A compare-and-swap that settles nothing keeps every uncertain record. */
  lemma SwappedEvolves(backend: Backend, w: World, id: string, t: InvocationTransition, now: Timestamp, fate: Fate)
    requires WorldInv(backend, w)
    requires t.expected.Reserved? || t.expected.Suspended? || (t.expected.Pending? && t.next.OutcomeUnknown?)
    ensures Evolves(w, Swapped(backend, w, id, t, now, fate), None, None)
    ensures StoreInv(backend, Swapped(backend, w, id, t, now, fate).records)
  {
    var records := if fate.NotApplied? then w.records else Transit(backend, w.records, id, t, now).0;
    NothingEvolves(w.records);
    TransitEvolves(backend, w.records, id, t, now);
    TransitKeepsInv(backend, w.records, id, t, now);
    TransitKeepsUncertain(backend, w.records, id, t, now);
    TableStepEvolves(w, records, None, w.operated);
  }

  /** As above, for a task that moves on without a claim. */
  lemma SwappedStepKeepsInv(backend: Backend, w: World, task: nat, t: InvocationTransition, now: Timestamp, fate: Fate, pc: Pc)
    requires WorldInv(backend, w) && At(w, task)
    requires t.expected.Reserved? || t.expected.Suspended? || (t.expected.Pending? && t.next.OutcomeUnknown?)
    requires
      var id := w.tasks[task].job.input.invocationId;
      TaskOk(Swapped(backend, w, id, t, now, fate), task, id, pc)
    requires PastExecution(w.tasks[task].pc) ==> PastExecution(pc)
    ensures WorldInv(backend, Goto(Swapped(backend, w, w.tasks[task].job.input.invocationId, t, now, fate), task, pc))
  {
    var id := w.tasks[task].job.input.invocationId;
    var moved := Swapped(backend, w, id, t, now, fate);
    SwappedEvolves(backend, w, id, t, now, fate);
    EvolvesKeepsNumbered(w, moved, None, None);
    EvolvesKeepsWaiting(w, moved, None, None);
    EvolvesKeepsBacked(w, moved, None, None);
    TaskStepKeepsInv(backend, w, moved, None, None, task, pc);
  }

  lemma SuspendStepKeepsInv(backend: Backend, w: World, task: nat, now: Timestamp, fate: Fate)
    requires WorldInv(backend, w) && At(w, task) && w.tasks[task].pc.Suspending?
    ensures WorldInv(backend, SuspendedBy(backend, w, task, now, fate))
  {
    var id := w.tasks[task].job.input.invocationId;
    var t: InvocationTransition := Transition(Reserved, Suspended(w.tasks[task].pc.suspension), NoAudit);
    var answer := if Applied(backend, w, id, t, now, fate) && fate.Delivered? then SuspensionStored else Refused;
    SwappedStepKeepsInv(backend, w, task, t, now, fate, Done(answer));
  }

  lemma GiveUpKeepsInv(backend: Backend, w: World, task: nat, now: Timestamp, fate: Fate)
    requires WorldInv(backend, w) && At(w, task) && (w.tasks[task].pc.AuditFailed? || w.tasks[task].pc.SettleFailed?)
    ensures WorldInv(backend, GivenUp(backend, w, task, now, fate))
  {
    hide StoreInv, WaitingUnclaimed, ClaimsBacked, LogOk, Evolves, Transit;
    var pc := w.tasks[task].pc;
    var id := w.tasks[task].job.input.invocationId;
    var t := Transition(Pending, OutcomeUnknown, if pc.AuditFailed? then NoAudit else Outcome(pc.outcome));
    var lost := if pc.SettleFailed? && pc.replyLost then Some(LostReply(pc.prepared, pc.outcome)) else None;
    var done := Done(Unknown(pc.key, pc.serial, pc.authorization, lost));
    if CorrespondingTransition(t) {
      SwappedEvolves(backend, w, id, t, now, fate);
      EvolvesKeepsTask(w, Swapped(backend, w, id, t, now, fate), None, None, task, id, done);
      SwappedStepKeepsInv(backend, w, task, t, now, fate, done);
    } else {
      MoveKeepsInv(backend, w, task, done);
    }
  }

  lemma RecordedKeepsInv(backend: Backend, w: World, task: nat, recordId: string, entry: LedgerEntry, fate: Fate, pc: Pc)
    requires WorldInv(backend, w) && At(w, task) && FreshId(w, recordId)
    requires TaskOk(Recorded(w, recordId, entry, fate), task, w.tasks[task].job.input.invocationId, pc)
    requires PastExecution(w.tasks[task].pc) ==> PastExecution(pc)
    ensures WorldInv(backend, Goto(Recorded(w, recordId, entry, fate), task, pc))
  {
    var moved := Recorded(w, recordId, entry, fate);
    NothingEvolves(w.records);
    assert Evolves(w, moved, None, None);
    EvolvesKeepsNumbered(w, moved, None, None);
    EvolvesKeepsWaiting(w, moved, None, None);
    EvolvesKeepsBacked(w, moved, None, None);
    TaskStepKeepsInv(backend, w, moved, None, None, task, pc);
  }

  /** Claiming the serial of a record that has just become pending. */
  lemma ClaimKeepsTable(w: World, key: ReservationKey, claim: Claim)
    requires Numbered(w) && WaitingUnclaimed(w) && ClaimsBacked(w)
    requires key in w.records && w.serials[key] !in w.claims && !Waiting(w.records[key].state)
    requires IsAuthorization(w, claim.authorization) && Linked(w.records[key].auditLinks, AuthorizationLink, claim.authorization)
    ensures
      var after := w.(claims := w.claims[w.serials[key] := claim]);
      Numbered(after) && WaitingUnclaimed(after) && ClaimsBacked(after)
  {}

  lemma ClaimEvolves(w: World, moved: World, serial: nat, claim: Claim)
    requires Evolves(w, moved, None, None) && serial !in w.claims
    ensures Evolves(w, moved.(claims := moved.claims[serial := claim]), None, None)
  {}

  lemma WaitingSerialIsFree(w: World, key: ReservationKey)
    requires Numbered(w) && WaitingUnclaimed(w) && key in w.records && Waiting(w.records[key].state)
    ensures w.serials[key] !in w.claims
  {}

  lemma ClaimedTable(backend: Backend, w: World, id: string, t: InvocationTransition, now: Timestamp, task: nat)
    requires WorldInv(backend, w) && t.next.Pending? && t.audit.Authorization? && IsAuthorization(w, t.audit.recordId)
    requires Transit(backend, w.records, id, t, now).1.Success?
    ensures exists key :: Holds(w.records, id, key)
    ensures
      var key := Located(w.records, id);
      var serial := w.serials[key];
      var swapped := w.(records := Transit(backend, w.records, id, t, now).0);
      var moved := swapped.(claims := w.claims[serial := Claim(task, t.audit.recordId)]);
      && Evolves(w, moved, None, None)
      && StoreInv(backend, moved.records) && Numbered(moved) && WaitingUnclaimed(moved) && ClaimsBacked(moved)
      && StoredAs(moved, key, serial) && moved.records[key].invocationId == id && moved.records[key].state.Pending?
  {
    hide StoreInv, WaitingUnclaimed, ClaimsBacked, LogOk, Evolves, Transit, TasksOk;
    var claim := Claim(task, t.audit.recordId);
    TransitAt(backend, w.records, id, t, now);
    var key := Located(w.records, id);
    WaitingSerialIsFree(w, key);
    var swapped := w.(records := Transit(backend, w.records, id, t, now).0);
    SwappedEvolves(backend, w, id, t, now, Delivered);
    assert swapped == Swapped(backend, w, id, t, now, Delivered);
    EvolvesKeepsNumbered(w, swapped, None, None);
    EvolvesKeepsWaiting(w, swapped, None, None);
    EvolvesKeepsBacked(w, swapped, None, None);
    LastIsLinked(w.records[key].auditLinks, AuditLink(AuthorizationLink, t.audit.recordId, now));
    ClaimKeepsTable(swapped, key, claim);
    ClaimEvolves(w, swapped, w.serials[key], claim);
  }

  lemma LastIsLinked(links: seq<AuditLink>, link: AuditLink)
    ensures Linked(links + [link], link.kind, link.recordId)
  {
    assert (links + [link])[|links|] == link;
  }

  ghost function ClaimedWorld(backend: Backend, w: World, id: string, t: InvocationTransition, now: Timestamp, task: nat, key: ReservationKey): World
    requires key in w.serials && t.audit.Authorization?
  {
    w.(records := Transit(backend, w.records, id, t, now).0, claims := w.claims[w.serials[key] := Claim(task, t.audit.recordId)])
  }

  lemma ClaimantIsOk(backend: Backend, w: World, id: string, t: InvocationTransition, now: Timestamp, task: nat, key: ReservationKey)
    requires key in w.serials && t.audit.Authorization?
    requires
      var moved := ClaimedWorld(backend, w, id, t, now, task, key);
      StoredAs(moved, key, w.serials[key]) && moved.records[key].invocationId == id && moved.records[key].state.Pending?
    ensures TaskOk(ClaimedWorld(backend, w, id, t, now, task, key), task, id, Executing(key, w.serials[key], t.audit.recordId))
  {
    hide Transit;
  }

  lemma ClaimWonKeepsInv(backend: Backend, w: World, id: string, t: InvocationTransition, now: Timestamp, task: nat, key: ReservationKey, pc: Pc)
    requires WorldInv(backend, w) && At(w, task) && w.tasks[task].pc.Claiming? && id == w.tasks[task].job.input.invocationId
    requires t == ToPending(w.tasks[task].pc.expected, w.tasks[task].pc.authorization)
    requires Transit(backend, w.records, id, t, now).1.Success?
    requires Holds(w.records, id, key) && key == Located(w.records, id)
    requires key in w.serials && (pc == Done(Refused) || pc == Executing(key, w.serials[key], t.audit.recordId))
    ensures WorldInv(backend, Goto(ClaimedWorld(backend, w, id, t, now, task, key), task, pc))
  {
    hide StoreInv, Numbered, WaitingUnclaimed, ClaimsBacked, Evolves, Transit, LogOk, TasksOk, TaskOk;
    ClaimantHasEntry(w, task);
    ClaimedTable(backend, w, id, t, now, task);
    var moved := ClaimedWorld(backend, w, id, t, now, task, key);
    ClaimantIsOk(backend, w, id, t, now, task, key);
    DoneRefusedIsOk(moved, task, id);
    TaskStepKeepsInv(backend, w, moved, None, None, task, pc);
  }

  lemma ClaimantHasEntry(w: World, task: nat)
    requires TasksOk(w) && At(w, task) && w.tasks[task].pc.Claiming?
    ensures IsAuthorization(w, w.tasks[task].pc.authorization)
  {}

  lemma DoneRefusedIsOk(w: World, task: nat, id: string)
    ensures TaskOk(w, task, id, Done(Refused))
  {}

  lemma ClaimStepKeepsInv(backend: Backend, w: World, task: nat, now: Timestamp, fate: Fate)
    requires WorldInv(backend, w) && At(w, task) && w.tasks[task].pc.Claiming?
    ensures WorldInv(backend, Claimed(backend, w, task, now, fate))
  {
    var pc := w.tasks[task].pc;
    var id := w.tasks[task].job.input.invocationId;
    var t := ToPending(pc.expected, pc.authorization);
    if CorrespondingTransition(t) && Applied(backend, w, id, t, now, fate) {
      AppliedIsLocated(backend, w, id, t, now, fate);
      var key := Located(w.records, id);
      var next := if fate.Delivered? then Executing(key, w.serials[key], pc.authorization) else Done(Refused);
      ClaimWonKeepsInv(backend, w, id, t, now, task, key, next);
    } else {
      MoveKeepsInv(backend, w, task, Done(Refused));
    }
  }

  lemma ExecuteKeepsTask(w: World, execution: Execution, task: nat, id: string, pc: Pc)
    requires TaskOk(w, task, id, pc)
    ensures TaskOk(w.(log := w.log + [execution]), task, id, pc)
  {}

  lemma ExecuteKeepsLog(w: World, task: nat, prepared: Prepared)
    requires LogOk(w) && At(w, task) && w.tasks[task].pc.Executing?
    requires
      var pc := w.tasks[task].pc;
      Owns(w, task, pc.serial, pc.authorization)
    ensures
      var pc := w.tasks[task].pc;
      var logged := w.(log := w.log + [Execution(pc.serial, task, pc.authorization)]);
      LogOk(Goto(logged, task, Executed(pc.key, pc.serial, pc.authorization, prepared)))
  {}

  /** The operation runs for a claimed serial that no earlier execution was for. */
  lemma ExecuteKeepsInv(backend: Backend, w: World, task: nat, prepared: Prepared)
    requires WorldInv(backend, w) && At(w, task) && w.tasks[task].pc.Executing?
    ensures WorldInv(backend, Next(backend, w, Execute(task, prepared)))
  {
    hide StoreInv, Numbered, WaitingUnclaimed, ClaimsBacked, LogOk;
    var pc := w.tasks[task].pc;
    var execution := Execution(pc.serial, task, pc.authorization);
    var logged := w.(log := w.log + [execution]);
    var next := Executed(pc.key, pc.serial, pc.authorization, prepared);
    forall other | other in w.tasks
      ensures TaskOk(logged, other, w.tasks[other].job.input.invocationId, w.tasks[other].pc)
    {
      ExecuteKeepsTask(w, execution, other, w.tasks[other].job.input.invocationId, w.tasks[other].pc);
    }
    assert TaskOk(logged, task, w.tasks[task].job.input.invocationId, next) by {
      assert logged.log[|w.log|] == execution;
    }
    GotoKeepsTasks(logged, task, next);
    LoggedKeepsTable(w, execution);
    GotoKeepsTable(logged, task, next);
    ExecuteKeepsLog(w, task, prepared);
  }

  lemma LoggedKeepsTable(w: World, execution: Execution)
    requires Numbered(w) && WaitingUnclaimed(w) && ClaimsBacked(w)
    ensures
      var logged := w.(log := w.log + [execution]);
      Numbered(logged) && WaitingUnclaimed(logged) && ClaimsBacked(logged)
  {}

  lemma SettledEvolves(backend: Backend, w: World, id: string, t: InvocationTransition, now: Timestamp)
    requires StoreInv(backend, w.records) && Numbered(w) && t.expected.Pending? && IsPrepared(t.next)
    requires Transit(backend, w.records, id, t, now).1.Success?
    ensures exists key :: Holds(w.records, id, key)
    ensures Evolves(w, w.(records := Transit(backend, w.records, id, t, now).0), None, Some(Located(w.records, id)))
  {
    hide StoreInv, Transit;
    TransitAt(backend, w.records, id, t, now);
    TransitEvolves(backend, w.records, id, t, now);
    TableStepEvolves(w, Transit(backend, w.records, id, t, now).0, Some(Located(w.records, id)), w.operated);
  }

  /** What an applied settling transition leaves behind. */
  lemma SettledTable(backend: Backend, w: World, id: string, t: InvocationTransition, now: Timestamp)
    requires WorldInv(backend, w) && t.expected.Pending? && IsPrepared(t.next) && t.audit.Outcome?
    requires Transit(backend, w.records, id, t, now).1.Success?
    ensures exists key :: Holds(w.records, id, key)
    ensures
      var key := Located(w.records, id);
      var moved := w.(records := Transit(backend, w.records, id, t, now).0);
      && Evolves(w, moved, None, Some(key))
      && StoreInv(backend, moved.records) && Numbered(moved) && WaitingUnclaimed(moved) && ClaimsBacked(moved)
  {
    SettledEvolves(backend, w, id, t, now);
    TransitKeepsInv(backend, w.records, id, t, now);
    var key := Located(w.records, id);
    var moved := w.(records := Transit(backend, w.records, id, t, now).0);
    EvolvesKeepsNumbered(w, moved, None, Some(key));
    EvolvesKeepsWaiting(w, moved, None, Some(key));
    EvolvesKeepsBacked(w, moved, None, Some(key));
  }

  lemma SettledRecord(backend: Backend, w: World, id: string, t: InvocationTransition, now: Timestamp)
    requires StoreInv(backend, w.records) && Numbered(w) && t.expected.Pending? && t.audit.Outcome?
    requires Transit(backend, w.records, id, t, now).1.Success?
    ensures exists key :: Holds(w.records, id, key)
    ensures
      var key := Located(w.records, id);
      var moved := w.(records := Transit(backend, w.records, id, t, now).0);
      && StoredAs(moved, key, w.serials[key]) && moved.records[key].state == t.next
      && EndsWith(moved.records[key].auditLinks, t.audit.recordId)
      && moved.records[key].invocationId == id
      && forall other | Holds(w.records, id, other) :: other == key
  {
    TransitAt(backend, w.records, id, t, now);
  }

  lemma OnlyRecordOfItsSerial(w: World, key: ReservationKey, serial: nat)
    requires Numbered(w) && StoredAs(w, key, serial)
    ensures forall other | StoredAs(w, other, serial) :: other == key
  {}

  /** Where a settling task is after its transition was applied at a key. */
  ghost function AfterSettling(pc: Pc, serial: nat, replyLost: bool): Pc
    requires pc.Settling?
  {
    if replyLost then SettleFailed(pc.key, pc.serial, pc.authorization, pc.prepared, pc.outcome, true)
    else if pc.prepared.OutcomeUnknown? then Done(Unknown(pc.key, pc.serial, pc.authorization, None))
    else Done(Settled(pc.prepared, pc.serial, serial, pc.authorization, pc.outcome))
  }

  lemma SettlerIsOk(w: World, moved: World, task: nat, id: string, pc: Pc, key: ReservationKey, serial: nat, replyLost: bool)
    requires Numbered(w) && Numbered(moved) && pc.Settling? && TaskOk(w, task, id, pc)
    requires Ran(moved, task, pc.serial, pc.authorization) && NamesAuthorization(moved, pc.outcome, pc.authorization)
    requires moved.operated == w.operated && moved.serials == w.serials
    requires StoredAs(moved, key, serial) && moved.records[key].state == pc.prepared && EndsWith(moved.records[key].auditLinks, pc.outcome)
    requires moved.records[key].invocationId == id
    requires forall other | Holds(w.records, id, other) :: other == key
    ensures TaskOk(moved, task, id, AfterSettling(pc, serial, replyLost))
    ensures w.operated || HeldKey(pc) == Some(key)
  {
    OnlyRecordOfItsSerial(moved, key, serial);
    assert w.operated || Holds(w.records, id, pc.key);
  }

  lemma SettleStepKeepsInv(backend: Backend, w: World, task: nat, now: Timestamp, fate: Fate)
    requires WorldInv(backend, w) && At(w, task) && w.tasks[task].pc.Settling?
    ensures WorldInv(backend, SettledBy(backend, w, task, now, fate))
  {
    hide StoreInv, WaitingUnclaimed, ClaimsBacked, LogOk, Evolves, Transit;
    var pc := w.tasks[task].pc;
    var id := w.tasks[task].job.input.invocationId;
    var t := Transition(Pending, pc.prepared, Outcome(pc.outcome));
    if CorrespondingTransition(t) && Applied(backend, w, id, t, now, fate) {
      SettledTable(backend, w, id, t, now);
      SettledRecord(backend, w, id, t, now);
      var key := Located(w.records, id);
      var serial := w.serials[key];
      var moved := Swapped(backend, w, id, t, now, fate);
      EvolvesKeepsRan(w, moved, None, Some(key), task, pc.serial, pc.authorization);
      SettlerIsOk(w, moved, task, id, pc, key, serial, fate.ReplyLost?);
      hide TaskOk, Numbered, TasksOk, HeldKey;
      TaskStepKeepsInv(backend, w, moved, None, Some(key), task, AfterSettling(pc, serial, fate.ReplyLost?));
    } else {
      MoveKeepsInv(backend, w, task, SettleFailed(pc.key, pc.serial, pc.authorization, pc.prepared, pc.outcome, false));
    }
  }

  lemma ReopenKeepsInv(backend: Backend, w: World, now: Timestamp)
    requires WorldInv(backend, w)
    ensures WorldInv(backend, w.(records := Reopen(backend, w.records, now)))
  {
    hide StoreInv, WaitingUnclaimed, ClaimsBacked, TableEvolves, Evolves, Recover, LogOk, TasksOk;
    var moved := w.(records := Reopen(backend, w.records, now));
    ReopenEvolves(backend, w.records, now);
    ApplyKeepsInv(backend, w.records, ReopenCall(now));
    TableStepEvolves(w, moved.records, None, w.operated);
    OutsideStepKeepsInv(backend, w, moved);
  }

  lemma OtherTransitionKeepsInv(backend: Backend, w: World, id: string, t: InvocationTransition, now: Timestamp)
    requires WorldInv(backend, w) && !(t.expected.Pending? && t.next.Suspended?)
    ensures WorldInv(backend, w.(records := Transit(backend, w.records, id, t, now).0, operated := true))
  {
    hide StoreInv, WaitingUnclaimed, ClaimsBacked, TableEvolves, Evolves, Transit, LogOk, TasksOk;
    var moved := w.(records := Transit(backend, w.records, id, t, now).0, operated := true);
    TransitEvolves(backend, w.records, id, t, now);
    TransitKeepsInv(backend, w.records, id, t, now);
    TableStepEvolves(w, moved.records, None, true);
    OutsideStepKeepsInv(backend, w, moved);
  }

  lemma OtherAbandonKeepsInv(backend: Backend, w: World, id: string, context: StatusContext, authorization: AbandonmentAuthorization, now: Timestamp)
    requires WorldInv(backend, w)
    ensures WorldInv(backend, w.(records := Abandon(backend, w.records, id, context, authorization, now).0, operated := true))
  {
    hide StoreInv, WaitingUnclaimed, ClaimsBacked, TableEvolves, Evolves, Abandon, LogOk, TasksOk;
    var moved := w.(records := Abandon(backend, w.records, id, context, authorization, now).0, operated := true);
    AbandonEvolves(backend, w.records, id, context, authorization, now);
    AbandonKeepsInv(backend, w.records, id, context, authorization, now);
    TableStepEvolves(w, moved.records, None, true);
    OutsideStepKeepsInv(backend, w, moved);
  }

  lemma AppendKeepsInv(backend: Backend, w: World, step: Step)
    requires WorldInv(backend, w) && (step.AppendAuthorization? || step.AppendOutcome?)
    ensures WorldInv(backend, Next(backend, w, step))
  {
    hide StoreInv, Numbered, WaitingUnclaimed, ClaimsBacked, LogOk;
    if At(w, step.task) && FreshId(w, step.recordId) {
      var pc := w.tasks[step.task].pc;
      if step.AppendAuthorization? && pc.Authorizing? {
        RecordedKeepsInv(backend, w, step.task, step.recordId, AuthorizationEntry, step.fate,
                         if step.fate.Delivered? then Claiming(pc.expected, step.recordId) else Done(Refused));
      } else if step.AppendOutcome? && pc.Executed? {
        RecordedKeepsInv(backend, w, step.task, step.recordId, OutcomeEntry(pc.authorization), step.fate,
                         if step.fate.Delivered? then Settling(pc.key, pc.serial, pc.authorization, pc.prepared, step.recordId)
                         else AuditFailed(pc.key, pc.serial, pc.authorization));
      }
    }
  }

  lemma NextKeepsInv(backend: Backend, w: World, step: Step)
    requires WorldInv(backend, w) && NeverReopens(step)
    ensures WorldInv(backend, Next(backend, w, step))
  {
    hide StoreInv, Numbered, WaitingUnclaimed, ClaimsBacked, LogOk, TasksOk;
    match step
    case Spawn(task, job) => SpawnKeepsInv(backend, w, task, job);
    case ReserveStep(task, now, retentionUntil, fate) =>
      if At(w, task) && w.tasks[task].pc.Idle? {
        ReserveStepKeepsInv(backend, w, task, now, retentionUntil, fate);
      }
    case SuspendStep(task, now, fate) =>
      if At(w, task) && w.tasks[task].pc.Suspending? {
        SuspendStepKeepsInv(backend, w, task, now, fate);
      }
    case AppendAuthorization(_, _, _) => AppendKeepsInv(backend, w, step);
    case ClaimStep(task, now, fate) =>
      if At(w, task) && w.tasks[task].pc.Claiming? {
        ClaimStepKeepsInv(backend, w, task, now, fate);
      }
    case Execute(task, prepared) =>
      if At(w, task) && w.tasks[task].pc.Executing? {
        ExecuteKeepsInv(backend, w, task, prepared);
      }
    case AppendOutcome(_, _, _) => AppendKeepsInv(backend, w, step);
    case SettleStep(task, now, fate) =>
      if At(w, task) && w.tasks[task].pc.Settling? {
        SettleStepKeepsInv(backend, w, task, now, fate);
      }
    case GiveUp(task, now, fate) =>
      if At(w, task) && (w.tasks[task].pc.AuditFailed? || w.tasks[task].pc.SettleFailed?) {
        GiveUpKeepsInv(backend, w, task, now, fate);
      }
    case Drop(task) =>
      if At(w, task) && !w.tasks[task].pc.Done? {
        MoveKeepsInv(backend, w, task, Done(Dropped));
      }
    case ReopenStep(now) => ReopenKeepsInv(backend, w, now);
    case OtherTransition(id, t, now) => OtherTransitionKeepsInv(backend, w, id, t, now);
    case OtherAbandon(id, context, authorization, now) => OtherAbandonKeepsInv(backend, w, id, context, authorization, now);
  }

  lemma {:induction false} EveryRunKeepsWorldInv(backend: Backend, steps: seq<Step>)
    requires ServiceRun(steps)
    ensures WorldInv(backend, After(backend, steps))
    decreases |steps|
  {
    if steps != [] {
      EveryRunKeepsWorldInv(backend, steps[..|steps| - 1]);
      NextKeepsInv(backend, After(backend, steps[..|steps| - 1]), steps[|steps| - 1]);
    }
  }

  // ---------------------------------------------------------------- the theorems

  /**
   No reservation is executed twice, however tasks interleave, whatever fails, whenever the store is
   reopened, and whatever other callers do short of returning a pending record to suspended.
   */
  lemma AtMostOneExecution(backend: Backend, steps: seq<Step>, i: nat, j: nat)
    requires ServiceRun(steps)
    requires i < |After(backend, steps).log| && j < |After(backend, steps).log|
    requires After(backend, steps).log[i].serial == After(backend, steps).log[j].serial
    ensures i == j
  {
    EveryRunKeepsWorldInv(backend, steps);
  }

  /**
   The operation only runs once its authorization is durable and linked on the stored record: that is so in
   the world just before the step that runs it. Only others' intervention can have removed the record by then.
   */
  lemma AuthorizedBeforeExecution(backend: Backend, steps: seq<Step>, task: nat, prepared: Prepared)
    requires ServiceRun(steps)
    requires
      var before := After(backend, steps);
      Next(backend, before, Execute(task, prepared)).log != before.log
    ensures
      var before := After(backend, steps);
      var after := Next(backend, before, Execute(task, prepared));
      && |after.log| == |before.log| + 1 && before.log <= after.log
      && var execution := after.log[|before.log|];
      && execution.task == task
      && IsAuthorization(before, execution.authorization)
      && (forall e | e in before.log :: e.serial != execution.serial)
      && (!before.operated ==> exists key :: StoredAs(before, key, execution.serial))
      && (forall key | StoredAs(before, key, execution.serial) ::
            Linked(before.records[key].auditLinks, AuthorizationLink, execution.authorization))
  {
    hide StoreInv, Numbered, WaitingUnclaimed, Transit, Reserve, ServiceRun;
    EveryRunKeepsWorldInv(backend, steps);
    assert NeverReopens(Execute(task, prepared));
    NextKeepsInv(backend, After(backend, steps), Execute(task, prepared));
  }

  /**
   A task that answered Succeeded or Failed executed the operation under an authorization entry that its
   outcome entry names, and its record, for as long as it is stored, has exactly that state and ends with
   that outcome. Unless others intervened, that record is the one it executed.
   */
  lemma SettledAnswersAgree(backend: Backend, steps: seq<Step>, task: nat)
    requires ServiceRun(steps) && At(After(backend, steps), task)
    requires
      var pc := After(backend, steps).tasks[task].pc;
      pc.Done? && pc.answer.Settled?
    ensures
      var w := After(backend, steps);
      var answer := w.tasks[task].pc.answer;
      && Final(answer.state)
      && Execution(answer.executed, task, answer.authorization) in w.log
      && IsAuthorization(w, answer.authorization)
      && NamesAuthorization(w, answer.outcome, answer.authorization)
      && (forall key | StoredAs(w, key, answer.serial) ::
            w.records[key].state == answer.state && EndsWith(w.records[key].auditLinks, answer.outcome))
      && (!w.operated ==> answer.executed == answer.serial)
  {
    EveryRunKeepsWorldInv(backend, steps);
  }

  /** The record of this reservation is stored and fences its scope. */
  ghost predicate StillFences(w: World, serial: nat) {
    exists key :: StoredAs(w, key, serial) && Fences(w.records[key].state)
  }

  /**
   As long as only the service and recovery act on the store, an outcome-unknown answer leaves the record
   fencing its scope, unless the answering task's settling transition to Succeeded or Failed was applied and
   only its reply was lost, and in no other case. Then the record, while stored, has that state and ends
   with the task's outcome entry.
   */
  lemma UnknownAnswersFenceExactly(backend: Backend, steps: seq<Step>, task: nat)
    requires ServiceRun(steps) && At(After(backend, steps), task) && !After(backend, steps).operated
    requires
      var pc := After(backend, steps).tasks[task].pc;
      pc.Done? && (pc.answer.Unknown? || pc.answer.UnknownExisting?)
    ensures
      var w := After(backend, steps);
      var answer := w.tasks[task].pc.answer;
      var settled := answer.Unknown? && answer.lost.Some? && Final(answer.lost.value.state);
      && (StillFences(w, answer.serial) <==> !settled)
      && (settled ==>
            forall key | StoredAs(w, key, answer.serial) ::
              w.records[key].state == answer.lost.value.state && EndsWith(w.records[key].auditLinks, answer.lost.value.outcome))
  {
    EveryRunKeepsWorldInv(backend, steps);
    var w := After(backend, steps);
    var answer := w.tasks[task].pc.answer;
    assert TaskOk(w, task, w.tasks[task].job.input.invocationId, w.tasks[task].pc);
    if !(answer.Unknown? && answer.lost.Some? && Final(answer.lost.value.state)) {
      assert StoredAs(w, answer.key, answer.serial) && Fences(w.records[answer.key].state);
    }
  }
}
