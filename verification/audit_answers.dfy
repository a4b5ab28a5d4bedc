/**
 What the audit ledger accepts: which records link, what an append answers and writes, and that the two records
 of an effect can always be appended, from the empty ledger on.
 */
module AuditAnswers {
  import opened Outcomes
  import opened Text
  import opened ByteStrings
  import opened Contract
  import opened AuditLedger
  import opened AuditLinkage
  import opened AuditRecords

  // ---------------------------------------------------------------- which records link

  /** A record of this type whose body names this tenant. */
  predicate RecordOf(record: Json, recordType: string, tenant: string) {
    && record.JObject?
    && RecordType in record.members && record.members[RecordType] == JText(recordType)
    && RecordBody in record.members && record.members[RecordBody].JObject?
    && var body := record.members[RecordBody].members;
       Correlated(TenantRef) in body && body[Correlated(TenantRef)] == JText(tenant)
  }

  /** The first entry with this record ID. */
  predicate FirstNamed(prior: seq<VerifiedEntry>, recordId: string, i: nat) {
    && i < |prior| && prior[i].receipt.recordId == recordId
    && forall k | 0 <= k < i :: prior[k].receipt.recordId != recordId
  }

  /** The entry is an authorization that carries every correlation field, each with the value the outcome has. */
  predicate Authorizes(authorization: Json, outcome: map<Key, Json>) {
    && authorization.JObject?
    && RecordType in authorization.members && authorization.members[RecordType] == JText("authorization")
    && RecordBody in authorization.members && authorization.members[RecordBody].JObject?
    && var body := authorization.members[RecordBody].members;
       forall field: Field :: Correlated(field) in body && Correlated(field) in outcome && body[Correlated(field)] == outcome[Correlated(field)]
  }

  /** An outcome that names an earlier entry of this ledger, which authorizes it. */
  ghost predicate LinkedOutcome(record: Json, tenant: string, prior: seq<VerifiedEntry>) {
    && RecordOf(record, "outcome", tenant)
    && var body := record.members[RecordBody].members;
       && WriteAheadRecordId in body && body[WriteAheadRecordId].JText?
       && exists i: nat :: FirstNamed(prior, body[WriteAheadRecordId].text, i) && Authorizes(prior[i].record, body)
  }

  lemma {:induction false} FindsFirst(prior: seq<VerifiedEntry>, recordId: string)
    ensures Find(prior, recordId).Some? ==> FirstNamed(prior, recordId, Find(prior, recordId).value)
    ensures forall i: nat | FirstNamed(prior, recordId, i) :: Find(prior, recordId) == Some(i)
  {
    if prior != [] {
      var last := |prior| - 1;
      FindsFirst(prior[..last], recordId);
      forall i: nat | FirstNamed(prior, recordId, i)
        ensures Find(prior, recordId) == Some(i)
      {
        if i < last {
          assert FirstNamed(prior[..last], recordId, i);
        }
      }
    }
  }

  lemma AuthorizesExactly(authorization: Json, body: map<Key, Json>)
    ensures Authorizes(authorization, body) <==>
            && AuthorizationBody(authorization).Some?
            && CompareAll(AuthorizationBody(authorization).value, JObject(body), CORRELATION).Success?
  {
    if AuthorizationBody(authorization).Some? {
      CompareAllIsAgreement(AuthorizationBody(authorization).value, JObject(body));
      hide CompareAll;
      forall field: Field
        ensures Agree(AuthorizationBody(authorization).value, JObject(body), field) <==>
                var own := authorization.members[RecordBody].members;
                Correlated(field) in own && Correlated(field) in body && own[Correlated(field)] == body[Correlated(field)]
      {}
    }
  }

  /** A record links exactly when it is an authorization of the tenant, or an outcome that an earlier entry authorizes. */
  lemma LinksExactly(record: Json, tenant: string, prior: seq<VerifiedEntry>)
    ensures Linkage(record, tenant, prior).Success? <==> RecordOf(record, "authorization", tenant) || LinkedOutcome(record, tenant, prior)
  {
    hide CompareAll, Find, Authorizes, AuthorizationBody;
    if RecordOf(record, "outcome", tenant) {
      var body := record.members[RecordBody].members;
      if WriteAheadRecordId in body && body[WriteAheadRecordId].JText? {
        var id := body[WriteAheadRecordId].text;
        FindsFirst(prior, id);
        var found := Find(prior, id);
        if found.Some? {
          AuthorizesExactly(prior[found.value].record, body);
        }
      }
    }
  }

  /** The field a mismatch names is the first on which the two bodies differ. */
  lemma {:induction false} MismatchIsFirst(authorization: Json, outcome: Json, fields: seq<Field>, field: Field)
    requires CompareAll(authorization, outcome, fields) == Result.Failure(FieldMismatch(field))
    ensures exists k :: 0 <= k < |fields| && fields[k] == field && DiffersAt(authorization, outcome, field)
                        && forall i | 0 <= i < k :: Agree(authorization, outcome, fields[i])
  {
    if fields != [] {
      var last := |fields| - 1;
      if CompareAll(authorization, outcome, fields[..last]).Failure? {
        MismatchIsFirst(authorization, outcome, fields[..last], field);
        var k :| 0 <= k < last && fields[..last][k] == field && DiffersAt(authorization, outcome, field)
                 && forall i | 0 <= i < k :: Agree(authorization, outcome, fields[..last][i]);
        assert forall i | 0 <= i < k :: fields[..last][i] == fields[i];
      } else {
        CompareAllMeans(authorization, outcome, fields[..last]);
        forall i | 0 <= i < last
          ensures Agree(authorization, outcome, fields[i])
        {
          assert Compare(authorization, outcome, fields[..last][i]).Success?;
        }
        assert fields[last] == field && DiffersAt(authorization, outcome, field);
      }
    }
  }

  /** Both bodies have the field, with different values. */
  predicate DiffersAt(authorization: Json, outcome: Json, field: Field) {
    && authorization.JObject? && outcome.JObject?
    && Correlated(field) in authorization.members && Correlated(field) in outcome.members
    && authorization.members[Correlated(field)] != outcome.members[Correlated(field)]
  }

  // ---------------------------------------------------------------- what an append answers

  /**
   An append to a verified partition succeeds exactly when the record links. It then adds one line that encodes
   the next entry: numbered one past the last, chained to it, hashed and named after its position.
   */
  lemma AppendExactly(codec: Codec, partition: string, file: Bytes, record: Json)
    ensures
      var (after, reply) := Append(codec, partition, file, record);
      && (reply.Success? <==>
            && ValidPartition(codec, partition) && Verified(codec, partition, file).Success?
            && (RecordOf(record, "authorization", partition) || LinkedOutcome(record, partition, Verified(codec, partition, file).value)))
      && (reply.Failure? ==> after == file)
      && (reply.Success? ==>
            var entries := Verified(codec, partition, file).value;
            var receipt := reply.value;
            && receipt.partition == partition && receipt.sequence == |entries| + 1
            && receipt.previousHash == (if entries == [] then ZERO_DIGEST else entries[|entries| - 1].receipt.recordHash)
            && receipt.recordHash == codec.hash(AUDIT_HASH_DOMAIN + codec.utf8(partition) + Word(|entries| + 1) + receipt.previousHash + codec.canonical(record))
            && receipt.recordId == "audit://" + partition + "/" + Decimal(|entries| + 1) + "/" + codec.hex(receipt.recordHash)
            && after == file + codec.encode(Persisted(partition, receipt.sequence, receipt.previousHash, receipt.recordHash, record)) + [NEWLINE])
  {
    hide Linkage, Verified, RecordOf, LinkedOutcome;
    var existing := Verified(codec, partition, file);
    if existing.Success? {
      SequencesCount(codec, partition, file);
      LinksExactly(record, partition, existing.value);
    }
  }

  /** The hash input tells partitions of one length apart. */
  lemma HashInputNamesPartition(codec: Codec, one: string, other: string, m: Sequence, n: Sequence, previous: Digest, previous': Digest, record: Json, record': Json)
    requires |codec.utf8(one)| == |codec.utf8(other)|
    requires Preimage(codec, one, m, previous, record) == Preimage(codec, other, n, previous', record')
    ensures codec.utf8(one) == codec.utf8(other)
  {
    var a, b := codec.utf8(one) + (Word(m) + previous + codec.canonical(record)), codec.utf8(other) + (Word(n) + previous' + codec.canonical(record'));
    assert Preimage(codec, one, m, previous, record) == AUDIT_HASH_DOMAIN + a;
    assert Preimage(codec, other, n, previous', record') == AUDIT_HASH_DOMAIN + b;
    SplitAtSameLength(AUDIT_HASH_DOMAIN, a, AUDIT_HASH_DOMAIN, b);
    SplitAtSameLength(codec.utf8(one), Word(m) + previous + codec.canonical(record), codec.utf8(other), Word(n) + previous' + codec.canonical(record'));
  }

  // ---------------------------------------------------------------- what was appended reads back

  lemma NothingVerifies(codec: Codec, partition: string)
    ensures Verified(codec, partition, []) == Success([])
  {
    LinesOfNothing();
  }

  lemma VerifiedEndsInNewline(codec: Codec, partition: string, file: Bytes)
    requires Verified(codec, partition, file).Success?
    ensures file == [] || file[|file| - 1] == NEWLINE
  {}

  lemma VerifiedCursor(codec: Codec, partition: string, file: Bytes)
    requires Verified(codec, partition, file).Success?
    ensures
      var entries := Verified(codec, partition, file).value;
      && |entries| < MAX_WORD
      && VerifyLines(codec, partition, Lines(file)) == Success(Cursor(entries, |entries| + 1, PreviousHash(entries)))
  {
    AcceptedLinesFormAChain(codec, partition, Lines(file));
  }

  lemma OneMoreLine(codec: Codec, partition: string, lines: seq<Bytes>, line: Bytes)
    requires VerifyLines(codec, partition, lines).Success?
    ensures VerifyLines(codec, partition, lines + [line]) == VerifyLine(codec, partition, VerifyLines(codec, partition, lines).value, line)
  {
    assert (lines + [line])[..|lines|] == lines;
  }

  /** After a successful append the partition verifies, with the new entry at its end, as long as it is not the last one possible. */
  lemma AppendedVerifies(codec: Codec, partition: string, file: Bytes, record: Json)
    requires Faithful(codec) && Append(codec, partition, file, record).1.Success?
    ensures Verified(codec, partition, file).Success?
    ensures
      var (after, reply) := Append(codec, partition, file, record);
      var entries := Verified(codec, partition, file).value;
      |entries| + 1 < MAX_WORD ==> Verified(codec, partition, after) == Success(entries + [VerifiedEntry(reply.value, record)])
  {
    hide Linkage, VerifyLine, VerifyLines, Lines, NextEntry, ValidPartition;
    var entries := Verified(codec, partition, file).value;
    VerifiedEndsInNewline(codec, partition, file);
    VerifiedCursor(codec, partition, file);
    if |entries| + 1 < MAX_WORD {
      var entry := NextEntry(codec, partition, entries, record);
      var line := codec.encode(Persist(entry));
      assert EncodesAsLine(codec, Persist(entry));
      ValidIsPrintable(codec, partition);
      NextLineIsAccepted(codec, partition, entries, record);
      LinesAppend(file, line);
      OneMoreLine(codec, partition, Lines(file), line);
      NextHolds(codec, partition, entries, record);
    }
  }

  lemma ValidIsPrintable(codec: Codec, partition: string)
    requires ValidPartition(codec, partition)
    ensures PrintableReference(partition)
  {}

  lemma NextHolds(codec: Codec, partition: string, entries: seq<VerifiedEntry>, record: Json)
    requires |entries| < MAX_WORD
    ensures NextEntry(codec, partition, entries, record).record == record
  {}

  // ---------------------------------------------------------------- an effect's two records

  lemma AuthorizationIsOfItsTenant(call: EffectCall, authorizedAt: Timestamp)
    ensures RecordOf(AuthorizationJson(AuthorizationOf(call, authorizedAt)), "authorization", call.principals.tenantRef)
  {
    var r := AuthorizationOf(call, authorizedAt);
    AuthorizationCarries(r, TenantRef);
    hide AuthorizationFields, AuthorizationMembers;
  }

  /**
   Any effect of a tenant can be audited: whatever its partition holds, as long as it verifies and has room for
   two entries, the authorization record is appended, then the outcome record, and both read back.
   */
  lemma EffectsAreAudited(codec: Codec, file: Bytes, call: EffectCall, authorizedAt: Timestamp, prepared: PreparedAudit, now: Timestamp)
    requires Faithful(codec) && ValidPartition(codec, call.principals.tenantRef) && Verified(codec, call.principals.tenantRef, file).Success?
    requires |Verified(codec, call.principals.tenantRef, file).value| + 2 < MAX_WORD
    ensures
      var tenant := call.principals.tenantRef;
      var entries := Verified(codec, tenant, file).value;
      var authorization := AuthorizationJson(AuthorizationOf(call, authorizedAt));
      var (authorized, receipt) := Append(codec, tenant, file, authorization);
      && receipt.Success? && receipt.value.sequence == |entries| + 1
      && var outcome := OutcomeJson(OutcomeOf(call, receipt.value, prepared, now));
         var (audited, second) := Append(codec, tenant, authorized, outcome);
         && second.Success? && second.value.sequence == |entries| + 2
         && Verified(codec, tenant, audited) ==
            Success(entries + [VerifiedEntry(receipt.value, authorization)] + [VerifiedEntry(second.value, outcome)])
  {
    hide Append, Verified, ValidPartition, Faithful, AuthorizationJson, OutcomeJson, AuthorizationOf, OutcomeOf, RecordOf, LinkedOutcome;
    var tenant := call.principals.tenantRef;
    var entries := Verified(codec, tenant, file).value;
    var authorization := AuthorizationJson(AuthorizationOf(call, authorizedAt));
    AuthorizationIsOfItsTenant(call, authorizedAt);
    AppendExactly(codec, tenant, file, authorization);
    AppendedVerifies(codec, tenant, file, authorization);
    var (authorized, receipt) := Append(codec, tenant, file, authorization);
    var longer := Verified(codec, tenant, authorized).value;
    assert longer[|entries|] == VerifiedEntry(receipt.value, authorization);
    ServiceOutcomesAlwaysLink(codec, authorized, call, |entries|, authorizedAt, prepared, now);
    var outcome := OutcomeJson(OutcomeOf(call, receipt.value, prepared, now));
    AppendExactly(codec, tenant, authorized, outcome);
    AppendedVerifies(codec, tenant, authorized, outcome);
  }
}
