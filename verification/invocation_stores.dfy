/**
 The two invocation stores as objects: the in-memory map of crates/kiteframe-provider/src/status.rs and the
 two SQLite tables of crates/kiteframe-provider-sqlite. Each method is one critical section or one
 immediate transaction, and computes the step of InvocationRecords on the abstract table.
 */
module InvocationStores {
  import opened Outcomes
  import opened Contract
  import opened InvocationRecords

  class InMemoryInvocationStore {
    var records: Records

    ghost predicate Valid()
      reads this
    {
      StoreInv(Memory, records)
    }

    constructor ()
      ensures Valid() && records == map[]
    {
      records := map[];
    }

    method ReserveOrGet(input: ReservationInput, descriptor: EffectDescriptor, now: Timestamp, retentionUntil: Timestamp)
      returns (r: Result<Reservation, StoreError>)
      requires Valid()
      modifies this
      ensures Valid() && (records, r) == Reserve(Memory, old(records), input, descriptor, now, retentionUntil)
    {
      ReserveKeepsInv(Memory, records, input, descriptor, now, retentionUntil);
      var attempt := TryReserve(input, descriptor, now, retentionUntil);
      if attempt.Failure? {
        return Failure(attempt.error);
      }
      var created := attempt.value;
      records := map key | key in records && (records[key].retentionUntil > now || Fences(records[key].state)) :: records[key];
      if created.key in records {
        var existing := records[created.key];
        if existing.context != created.context {
          return Failure(ContextMismatch);
        }
        if existing.requestDigest != created.requestDigest {
          return Failure(KeyBoundToOtherRequest);
        }
        return Success(Reservation(Existing, existing));
      }
      if ScopeIsFenced(records, created.key.scope) {
        return Failure(ScopeFenced);
      }
      if IdTaken(records, created.invocationId) {
        return Failure(InvocationIdTaken);
      }
      records := records[created.key := created];
      r := Success(Reservation(NewlyReserved, created));
    }

    method Transition(invocationId: string, t: InvocationTransition, now: Timestamp) returns (r: Result<(), StoreError>)
      requires Valid()
      modifies this
      ensures Valid() && (records, r) == Transit(Memory, old(records), invocationId, t, now)
    {
      TransitKeepsInv(Memory, records, invocationId, t, now);
      if !IdTaken(records, invocationId) {
        return Failure(NotFound);
      }
      var key :| key in records && records[key].invocationId == invocationId;
      TransitFound(Memory, records, invocationId, key, t, now);
      var stored := records[key];
      if stored.state != t.expected {
        return Failure(CompareAndSwapFailed);
      }
      if now < stored.updatedAt {
        return Failure(ClockMovedBackwards);
      }
      var link := LinkOf(t.audit, now);
      if link != [] {
        if Linked(stored.auditLinks, link[0].kind, link[0].recordId) {
          return Failure(AuditRecordAlreadyLinked);
        }
        stored := stored.(auditLinks := stored.auditLinks + link);
      }
      stored := stored.(state := t.next, updatedAt := now);
      assert stored == Swap(Memory, records[key], t, now).value by {
        assert records[key].auditLinks + [] == records[key].auditLinks;
      }
      records := records[key := stored];
      r := Success(());
    }

    method Status(invocationId: string, context: StatusContext) returns (r: Result<StoredInvocation, StoreError>)
      requires Valid()
      ensures forall key | Holds(records, invocationId, key) ::
                r == if records[key].context == context then Success(records[key]) else Failure(ContextMismatch)
      ensures r == Failure(NotFound) <==> forall key | key in records :: records[key].invocationId != invocationId
    {
      if !IdTaken(records, invocationId) {
        return Failure(NotFound);
      }
      var key :| key in records && records[key].invocationId == invocationId;
      if records[key].context != context {
        return Failure(ContextMismatch);
      }
      r := Success(records[key]);
    }

    method Abandon(invocationId: string, context: StatusContext, authorization: AbandonmentAuthorization) returns (r: Result<(), StoreError>)
      requires Valid()
      modifies this
      ensures Valid() && (records, r) == InvocationRecords.Abandon(Memory, old(records), invocationId, context, authorization, 0)
    {
      if !IdTaken(records, invocationId) {
        return Failure(NotFound);
      }
      var key :| key in records && records[key].invocationId == invocationId;
      AbandonFound(Memory, records, invocationId, key, context, authorization, 0);
      var stored := records[key];
      if stored.context != context {
        return Failure(ContextMismatch);
      }
      if stored.state != OutcomeUnknown {
        return Failure(NotOutcomeUnknown);
      }
      var at := if stored.updatedAt < MAX_U64 then stored.updatedAt + 1 else MAX_U64;
      var next := stored.(abandonment := Some(authorization), state := Abandoned, updatedAt := at);
      AbandonKeepsInv(Memory, records, invocationId, context, authorization, 0);
      assert AbandonOne(Memory, stored, context, authorization, 0) == Success(next);
      records := records[key := next];
      r := Success(());
    }
  }

  /** The in-memory `abandon` reads no clock. */
  lemma MemoryAbandonIgnoresClock(records: Records, invocationId: string, context: StatusContext, authorization: AbandonmentAuthorization, now: Timestamp)
    requires UniqueIds(records)
    ensures InvocationRecords.Abandon(Memory, records, invocationId, context, authorization, now)
         == InvocationRecords.Abandon(Memory, records, invocationId, context, authorization, 0)
  {
    if key :| Holds(records, invocationId, key) {
      AbandonFound(Memory, records, invocationId, key, context, authorization, now);
      AbandonFound(Memory, records, invocationId, key, context, authorization, 0);
    }
  }

  // ---------------------------------------------------------------- the SQLite tables

  /** The rows of the audit-link table, grouped by invocation ID and in sequence order. */
  type Links = map<string, seq<AuditLink>>

  function LinksOf(links: Links, invocationId: string): seq<AuditLink> {
    if invocationId in links then links[invocationId] else []
  }

  /** The records the two tables describe together; the rows hold no links of their own. */
  function Join(rows: Records, links: Links): Records {
    map key | key in rows :: rows[key].(auditLinks := LinksOf(links, rows[key].invocationId))
  }

  /** ON DELETE CASCADE. */
  function Cascade(links: Links, rows: Records): Links {
    map invocationId | invocationId in links && IdTaken(rows, invocationId) :: links[invocationId]
  }

  ghost predicate Tables(rows: Records, links: Links) {
    && StoreInv(Sqlite, Join(rows, links))
    && (forall key | key in rows :: rows[key].auditLinks == [])
    && forall invocationId | invocationId in links :: IdTaken(rows, invocationId)
  }

  lemma JoinAfterPurge(rows: Records, links: Links, now: Timestamp)
    ensures Join(Retained(rows, now), Cascade(links, Retained(rows, now))) == Retained(Join(rows, links), now)
  {
    var kept := Retained(rows, now);
    forall key | key in kept
      ensures LinksOf(Cascade(links, kept), kept[key].invocationId) == LinksOf(links, rows[key].invocationId)
    {
      assert IdTaken(kept, kept[key].invocationId);
    }
  }

  lemma JoinScans(rows: Records, links: Links, scope: Scope, id: string)
    ensures ScopeIsFenced(Join(rows, links), scope) == ScopeIsFenced(rows, scope)
    ensures IdTaken(Join(rows, links), id) == IdTaken(rows, id)
    ensures StatusIdTaken(Join(rows, links), id) == StatusIdTaken(rows, id)
  {
    var joined := Join(rows, links);
    assert forall key | key in rows :: joined[key].state == rows[key].state && joined[key].invocationId == rows[key].invocationId;
  }

  /** What the reservation's three SELECTs and the unique index decide, on the joined table. */
  lemma PlaceOnTables(rows: Records, links: Links, created: StoredInvocation)
    ensures Place(Sqlite, Join(rows, links), created) ==
            if created.key in rows then
              var existing := rows[created.key].(auditLinks := LinksOf(links, rows[created.key].invocationId));
              if existing.context != created.context then Failure(ContextMismatch)
              else if existing.requestDigest != created.requestDigest then Failure(KeyBoundToOtherRequest)
              else Success(Reservation(Existing, existing))
            else if ScopeIsFenced(rows, created.key.scope) then Failure(ScopeFenced)
            else if IdTaken(rows, created.invocationId) then Failure(InvocationIdTaken)
            else if StatusIdTaken(rows, created.facts.statusId) then Failure(StorageConstraint)
            else Success(Reservation(NewlyReserved, created))
  {
    JoinScans(rows, links, created.key.scope, created.invocationId);
    JoinScans(rows, links, created.key.scope, created.facts.statusId);
  }

  lemma JoinInsert(rows: Records, links: Links, created: StoredInvocation)
    requires created.auditLinks == [] && created.invocationId !in links
    ensures Join(rows[created.key := created], links) == Join(rows, links)[created.key := created]
  {}

  predicate RowMatches(row: StoredInvocation, invocationId: string, t: InvocationTransition, now: Timestamp) {
    row.invocationId == invocationId && row.state == t.expected && row.updatedAt <= now
  }

  lemma UpdateMatchesNoRow(rows: Records, links: Links, invocationId: string, t: InvocationTransition, now: Timestamp)
    requires Tables(rows, links) && now <= MAX_I64
    requires forall key | key in rows :: !RowMatches(rows[key], invocationId, t, now)
    ensures Transit(Sqlite, Join(rows, links), invocationId, t, now) == (Join(rows, links), Failure(CompareAndSwapFailed))
  {
    if key :| Holds(Join(rows, links), invocationId, key) {
      TransitFound(Sqlite, Join(rows, links), invocationId, key, t, now);
      assert !RowMatches(rows[key], invocationId, t, now);
    }
  }

  lemma UpdateMatchesRow(rows: Records, links: Links, key: ReservationKey, t: InvocationTransition, now: Timestamp)
    requires Tables(rows, links) && now <= MAX_I64 && key in rows && RowMatches(rows[key], rows[key].invocationId, t, now)
    ensures
      var id := rows[key].invocationId;
      var link := LinkOf(t.audit, now);
      var joined := Join(rows, links);
      Transit(Sqlite, joined, id, t, now) ==
      if link != [] && Linked(LinksOf(links, id), link[0].kind, link[0].recordId) then (joined, Failure(StorageConstraint))
      else (joined[key := rows[key].(state := t.next, updatedAt := now, auditLinks := LinksOf(links, id) + link)], Success(()))
  {
    TransitFound(Sqlite, Join(rows, links), rows[key].invocationId, key, t, now);
  }

  predicate Abandonable(row: StoredInvocation, invocationId: string, context: StatusContext, now: Timestamp) {
    row.invocationId == invocationId && row.state == OutcomeUnknown && row.updatedAt <= now && row.context == context
  }

  lemma AbandonMatchesNoRow(rows: Records, links: Links, invocationId: string, context: StatusContext, authorization: AbandonmentAuthorization, now: Timestamp)
    requires Tables(rows, links) && now <= MAX_I64
    requires forall key | key in rows :: !Abandonable(rows[key], invocationId, context, now)
    ensures InvocationRecords.Abandon(Sqlite, Join(rows, links), invocationId, context, authorization, now)
         == (Join(rows, links), Failure(StatusUnavailable))
  {
    if key :| Holds(Join(rows, links), invocationId, key) {
      AbandonFound(Sqlite, Join(rows, links), invocationId, key, context, authorization, now);
      assert !Abandonable(rows[key], invocationId, context, now);
    }
  }

  lemma OnlyRowOfItsId(rows: Records, links: Links, key: ReservationKey, other: ReservationKey)
    requires Tables(rows, links) && key in rows && other in rows && rows[other].invocationId == rows[key].invocationId
    ensures other == key
  {
    var joined := Join(rows, links);
    assert joined[other].invocationId == joined[key].invocationId;
  }

  /** Updating a row and the links of its ID updates one joined record. */
  lemma JoinUpdate(rows: Records, links: Links, links': Links, key: ReservationKey, row: StoredInvocation)
    requires Tables(rows, links) && key in rows && row.invocationId == rows[key].invocationId
    requires forall id | id != row.invocationId :: LinksOf(links', id) == LinksOf(links, id)
    ensures Join(rows[key := row], links') == Join(rows, links)[key := row.(auditLinks := LinksOf(links', row.invocationId))]
  {
    forall other | other in rows && other != key
      ensures LinksOf(links', rows[other].invocationId) == LinksOf(links, rows[other].invocationId)
    {
      if rows[other].invocationId == row.invocationId {
        OnlyRowOfItsId(rows, links, key, other);
      }
    }
  }

  lemma SameIdsTaken(rows: Records, rows': Records, id: string)
    requires rows'.Keys == rows.Keys && forall key | key in rows :: rows'[key].invocationId == rows[key].invocationId
    ensures IdTaken(rows', id) == IdTaken(rows, id)
  {}

  /** An UPDATE of one row, with or without an INSERT into its links, leaves well-formed tables. */
  lemma UpdateKeepsTables(rows: Records, links: Links, links': Links, key: ReservationKey, row: StoredInvocation)
    requires Tables(rows, links) && key in rows && row.invocationId == rows[key].invocationId && row.auditLinks == []
    requires forall id | id != row.invocationId :: LinksOf(links', id) == LinksOf(links, id)
    requires links'.Keys <= links.Keys + {row.invocationId}
    requires StoreInv(Sqlite, Join(rows, links)[key := row.(auditLinks := LinksOf(links', row.invocationId))])
    ensures Join(rows[key := row], links') == Join(rows, links)[key := row.(auditLinks := LinksOf(links', row.invocationId))]
    ensures Tables(rows[key := row], links')
  {
    JoinUpdate(rows, links, links', key, row);
    forall id | id in links'
      ensures IdTaken(rows[key := row], id)
    {
      SameIdsTaken(rows, rows[key := row], id);
    }
  }

  lemma JoinRecover(rows: Records, links: Links, now: Timestamp)
    ensures Join(Recover(rows, now), links) == Recover(Join(rows, links), now)
  {}

  lemma RecoverKeepsJoinInv(rows: Records, links: Links, now: Timestamp)
    requires StoreInv(Sqlite, Join(rows, links))
    ensures StoreInv(Sqlite, Join(Recover(rows, now), links))
  {
    RecoverKeepsInv(Join(rows, links), now);
    JoinRecover(rows, links, now);
  }

  lemma RecoverKeepsIds(rows: Records, now: Timestamp, id: string)
    ensures IdTaken(Recover(rows, now), id) == IdTaken(rows, id)
  {
    SameIdsTaken(rows, Recover(rows, now), id);
  }

  lemma RecoverKeepsTables(rows: Records, links: Links, now: Timestamp)
    requires Tables(rows, links)
    ensures Tables(Recover(rows, now), links)
  {
    RecoverKeepsJoinInv(rows, links, now);
    forall id | id in links
      ensures IdTaken(Recover(rows, now), id)
    {
      RecoverKeepsIds(rows, now, id);
    }
  }

  lemma PurgeKeepsTables(rows: Records, links: Links, now: Timestamp)
    requires Tables(rows, links)
    ensures Tables(Retained(rows, now), Cascade(links, Retained(rows, now)))
  {
    JoinAfterPurge(rows, links, now);
    RetainedKeepsInv(Sqlite, Join(rows, links), now);
  }

  lemma InsertKeepsTables(rows: Records, links: Links, created: StoredInvocation)
    requires Tables(rows, links) && created.key !in rows && created.state.Reserved? && created.auditLinks == [] && created.abandonment.None?
    requires !ScopeIsFenced(rows, created.key.scope) && !IdTaken(rows, created.invocationId)
    ensures Tables(rows[created.key := created], links)
    ensures Join(rows[created.key := created], links) == Join(rows, links)[created.key := created]
  {
    JoinInsert(rows, links, created);
    JoinScans(rows, links, created.key.scope, created.invocationId);
    NewRecordIsOk(Sqlite, created);
    InsertKeepsInv(Sqlite, Join(rows, links), created);
    forall id | id in links
      ensures IdTaken(rows[created.key := created], id)
    {
      var key :| key in rows && rows[key].invocationId == id;
      assert rows[created.key := created][key].invocationId == id;
    }
  }

  class SqliteInvocationStore {
    var rows: Records
    var links: Links

    ghost predicate Valid()
      reads this
    {
      Tables(rows, links)
    }

    ghost function Table(): Records
      reads this
    {
      Join(rows, links)
    }

    constructor ()
      ensures Valid() && Table() == map[]
    {
      rows, links := map[], map[];
    }

    /** Opening the database again: recovery is one UPDATE, and a clock the column cannot hold keeps it closed. */
    method RecoverIncompleteEffects(now: Timestamp) returns (isOpen: bool)
      requires Valid()
      modifies this
      ensures Valid() && Table() == Reopen(Sqlite, old(Table()), now) && isOpen == (now <= MAX_I64)
    {
      if now > MAX_I64 {
        return false;
      }
      JoinRecover(rows, links, now);
      RecoverKeepsTables(rows, links, now);
      rows := map key | key in rows :: RecoverOne(rows[key], now);
      assert rows == Recover(old(rows), now);
      isOpen := true;
    }

    method ReserveOrGet(input: ReservationInput, descriptor: EffectDescriptor, now: Timestamp, retentionUntil: Timestamp)
      returns (r: Result<Reservation, StoreError>)
      requires Valid()
      modifies this
      ensures Valid() && (Table(), r) == Reserve(Sqlite, old(Table()), input, descriptor, now, retentionUntil)
    {
      var attempt := TryReserve(input, descriptor, now, retentionUntil);
      if attempt.Failure? {
        return Failure(attempt.error);
      }
      var created := attempt.value;
      if created.createdAt > MAX_I64 || created.updatedAt > MAX_I64 || created.retentionUntil > MAX_I64 {
        return Failure(TimestampOutOfRange);
      }
      var kept := map key | key in rows && (rows[key].retentionUntil > now || Fences(rows[key].state)) :: rows[key];
      var keptLinks := Cascade(links, kept);
      JoinAfterPurge(rows, links, now);
      PurgeKeepsTables(rows, links, now);
      PlaceOnTables(kept, keptLinks, created);
      if created.key in kept {
        var existing := kept[created.key].(auditLinks := LinksOf(keptLinks, kept[created.key].invocationId));
        if existing.context != created.context {
          return Failure(ContextMismatch);
        }
        if existing.requestDigest != created.requestDigest {
          return Failure(KeyBoundToOtherRequest);
        }
        rows, links := kept, keptLinks;
        return Success(Reservation(Existing, existing));
      }
      if ScopeIsFenced(kept, created.key.scope) {
        return Failure(ScopeFenced);
      }
      if IdTaken(kept, created.invocationId) {
        return Failure(InvocationIdTaken);
      }
      if StatusIdTaken(kept, created.facts.statusId) {
        return Failure(StorageConstraint);
      }
      InsertKeepsTables(kept, keptLinks, created);
      rows, links := kept[created.key := created], keptLinks;
      r := Success(Reservation(NewlyReserved, created));
    }

    method Transition(invocationId: string, t: InvocationTransition, now: Timestamp) returns (r: Result<(), StoreError>)
      requires Valid()
      modifies this
      ensures Valid() && (Table(), r) == Transit(Sqlite, old(Table()), invocationId, t, now)
    {
      TransitKeepsInv(Sqlite, Table(), invocationId, t, now);
      if now > MAX_I64 {
        return Failure(TimestampOutOfRange);
      }
      if !exists key | key in rows :: RowMatches(rows[key], invocationId, t, now) {
        UpdateMatchesNoRow(rows, links, invocationId, t, now);
        return Failure(CompareAndSwapFailed);
      }
      var key :| key in rows && RowMatches(rows[key], invocationId, t, now);
      UpdateMatchesRow(rows, links, key, t, now);
      var link := LinkOf(t.audit, now);
      var attached := LinksOf(links, invocationId);
      if link != [] && Linked(attached, link[0].kind, link[0].recordId) {
        return Failure(StorageConstraint);
      }
      var row := rows[key].(state := t.next, updatedAt := now);
      var links' := if link == [] then links else links[invocationId := attached + link];
      assert LinksOf(links', invocationId) == attached + link;
      UpdateKeepsTables(rows, links, links', key, row);
      rows, links := rows[key := row], links';
      r := Success(());
    }

    /** `status` reads the row and its links in one snapshot. */
    method Status(invocationId: string, context: StatusContext) returns (r: Result<StoredInvocation, StoreError>)
      requires Valid()
      ensures forall key | Holds(Table(), invocationId, key) ::
                r == if Table()[key].context == context then Success(Table()[key]) else Failure(StatusUnavailable)
      ensures (forall key :: !Holds(Table(), invocationId, key)) ==> r == Failure(StatusUnavailable)
    {
      if !IdTaken(rows, invocationId) {
        return Failure(StatusUnavailable);
      }
      var key :| key in rows && rows[key].invocationId == invocationId;
      assert Holds(Table(), invocationId, key);
      var stored := rows[key].(auditLinks := LinksOf(links, invocationId));
      if stored.context != context {
        return Failure(StatusUnavailable);
      }
      r := Success(stored);
    }

    method Abandon(invocationId: string, context: StatusContext, authorization: AbandonmentAuthorization, now: Timestamp) returns (r: Result<(), StoreError>)
      requires Valid()
      modifies this
      ensures Valid() && (Table(), r) == InvocationRecords.Abandon(Sqlite, old(Table()), invocationId, context, authorization, now)
    {
      AbandonKeepsInv(Sqlite, Table(), invocationId, context, authorization, now);
      if now > MAX_I64 {
        return Failure(TimestampOutOfRange);
      }
      if !exists key | key in rows :: Abandonable(rows[key], invocationId, context, now) {
        AbandonMatchesNoRow(rows, links, invocationId, context, authorization, now);
        return Failure(StatusUnavailable);
      }
      var key :| key in rows && Abandonable(rows[key], invocationId, context, now);
      AbandonFound(Sqlite, Table(), invocationId, key, context, authorization, now);
      var row := rows[key].(state := Abandoned, abandonment := Some(authorization), updatedAt := now);
      UpdateKeepsTables(rows, links, links, key, row);
      rows := rows[key := row];
      r := Success(());
    }
  }
}
