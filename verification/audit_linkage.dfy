/**
 Outcomes and authorizations in the audit ledger: record IDs identify entries, and every outcome names a
 strictly earlier authorization it agrees with.
 */
module AuditLinkage {
  import opened Outcomes
  import opened ByteStrings
  import opened AuditLedger

  // ---------------------------------------------------------------- record IDs

  lemma {:induction false} DecimalInjective(a: nat, b: nat)
    requires Decimal(a) == Decimal(b)
    ensures a == b
  {
    var x, y := Decimal(a), Decimal(b);
    assert x[|x| - 1] == Digit(a % 10) && y[|y| - 1] == Digit(b % 10);
    if a >= 10 && b >= 10 {
      assert x[..|x| - 1] == Decimal(a / 10) && y[..|y| - 1] == Decimal(b / 10);
      DecimalInjective(a / 10, b / 10);
    } else {
      DecimalNotEmpty(a / 10);
      DecimalNotEmpty(b / 10);
    }
  }

  lemma DecimalNotEmpty(n: nat)
    ensures Decimal(n) != []
  {}

  /** A text without the separator is determined by what it starts. */
  lemma {:induction false} UpToSeparator(a: string, b: string, left: string, right: string)
    requires '/' !in a && '/' !in b && a + "/" + left == b + "/" + right
    ensures a == b
  {
    var whole := a + "/" + left;
    assert whole == b + "/" + right;
    assert whole[|a|] == '/' && whole[|b|] == '/';
    if a != [] && b != [] {
      assert whole[0] == a[0] == b[0];
      assert whole[1..] == a[1..] + "/" + left == b[1..] + "/" + right;
      UpToSeparator(a[1..], b[1..], left, right);
    }
  }

  lemma RecordIdsDiffer(codec: Codec, partition: string, m: nat, n: nat, one: Digest, other: Digest)
    requires RecordId(codec, partition, m, one) == RecordId(codec, partition, n, other)
    ensures m == n && codec.hex(one) == codec.hex(other)
  {
    var head := "audit://" + partition + "/";
    var left, right := Decimal(m) + "/" + codec.hex(one), Decimal(n) + "/" + codec.hex(other);
    assert RecordId(codec, partition, m, one) == head + left;
    assert RecordId(codec, partition, n, other) == head + right;
    SplitAtSameLength(head, left, head, right);
    UpToSeparator(Decimal(m), Decimal(n), codec.hex(one), codec.hex(other));
    DecimalInjective(m, n);
    SplitAtSameLength(Decimal(m) + "/", codec.hex(one), Decimal(n) + "/", codec.hex(other));
  }

  /** Every entry of a chain continues the entries before it. */
  lemma {:induction false} ChainEntry(codec: Codec, partition: string, entries: seq<VerifiedEntry>, i: nat)
    requires ChainOk(codec, partition, entries) && i < |entries|
    ensures ChainOk(codec, partition, entries[..i]) && i < MAX_WORD
    ensures entries[i] == NextEntry(codec, partition, entries[..i], entries[i].record)
    ensures Linkage(entries[i].record, partition, entries[..i]).Success?
  {
    hide Linkage, RecordHash, RecordId;
    var last := |entries| - 1;
    if i < last {
      assert entries[..last][..i] == entries[..i];
      ChainEntry(codec, partition, entries[..last], i);
    }
  }

  /** No two entries of a ledger share a record ID. */
  lemma RecordIdsIdentifyEntries(codec: Codec, partition: string, entries: seq<VerifiedEntry>, i: nat, j: nat)
    requires ChainOk(codec, partition, entries) && i < |entries| && j < |entries|
    requires entries[i].receipt.recordId == entries[j].receipt.recordId
    ensures i == j
  {
    hide ChainOk, RecordHash;
    ChainEntry(codec, partition, entries, i);
    ChainEntry(codec, partition, entries, j);
    RecordIdsDiffer(codec, partition, i + 1, j + 1, entries[i].receipt.recordHash, entries[j].receipt.recordHash);
  }

  lemma FindsTheEntry(codec: Codec, partition: string, entries: seq<VerifiedEntry>, i: nat)
    requires ChainOk(codec, partition, entries) && i < |entries|
    ensures Find(entries, entries[i].receipt.recordId) == Some(i)
  {
    hide ChainOk;
    var found := Find(entries, entries[i].receipt.recordId);
    if found.Some? {
      RecordIdsIdentifyEntries(codec, partition, entries, i, found.value);
    }
  }

  // ---------------------------------------------------------------- outcomes name authorizations

  predicate IsOutcome(record: Json) {
    TextMember(record, RecordType) == Some("outcome")
  }

  lemma EveryFieldIsCompared(field: Field)
    ensures field in CORRELATION
  {
    var i :=
      match field
      case TenantRef => 0 case HumanPrincipalRef => 1 case WorkloadPrincipalRef => 2 case RunRef => 3 case ActorField => 4
      case AgentField => 5 case TaskField => 6 case SessionField => 7 case CapabilityField => 8 case ResourceField => 9
      case AdmissionId => 10 case GrantDigest => 11 case CatalogIdentity => 12 case CatalogDigest => 13
      case DescriptorDigest => 14 case AuthorityRevisionDigest => 15 case InvocationId => 16 case StatusId => 17
      case IdempotencyKey => 18 case ProposalDigest => 19 case PortableDigest => 20 case LockDigest => 21
      case BindingDigest => 22 case ResolvedDigest => 23 case TraceId => 24 case SpanId => 25 case IntendedEffect => 26;
    assert CORRELATION[i] == field;
  }

  /** The two bodies carry the same value for a field, and both carry one. */
  predicate Agree(authorization: Json, outcome: Json, field: Field) {
    Member(authorization, Correlated(field)).Some? && Member(authorization, Correlated(field)) == Member(outcome, Correlated(field))
  }

  lemma CompareAllIsAgreement(authorization: Json, outcome: Json)
    ensures CompareAll(authorization, outcome, CORRELATION).Success? <==> forall field: Field :: Agree(authorization, outcome, field)
  {
    CompareAllMeans(authorization, outcome, CORRELATION);
    if CompareAll(authorization, outcome, CORRELATION).Success? {
      forall field: Field
        ensures Agree(authorization, outcome, field)
      {
        EveryFieldIsCompared(field);
        var i :| 0 <= i < |CORRELATION| && CORRELATION[i] == field;
        assert Compare(authorization, outcome, CORRELATION[i]).Success?;
      }
    } else {
      var i :| 0 <= i < |CORRELATION| && !Compare(authorization, outcome, CORRELATION[i]).Success?;
      assert !Agree(authorization, outcome, CORRELATION[i]);
    }
  }

  /** The entry an outcome's link names is an authorization whose body agrees with the outcome's on every field. */
  predicate LinksBackTo(outcome: VerifiedEntry, authorization: VerifiedEntry) {
    && BodyOf(outcome.record).Some?
    && TextMember(BodyOf(outcome.record).value, WriteAheadRecordId) == Some(authorization.receipt.recordId)
    && AuthorizationBody(authorization.record).Some?
    && CompareAll(AuthorizationBody(authorization.record).value, BodyOf(outcome.record).value, CORRELATION).Success?
  }

  /** In a verified ledger every outcome names exactly one entry: a strictly earlier authorization, with which it agrees. */
  lemma OutcomesNameEarlierAuthorizations(codec: Codec, partition: string, file: Bytes, i: nat) returns (j: nat)
    requires Verified(codec, partition, file).Success?
    requires i < |Verified(codec, partition, file).value| && IsOutcome(Verified(codec, partition, file).value[i].record)
    ensures j < i
    ensures
      var entries := Verified(codec, partition, file).value;
      && LinksBackTo(entries[i], entries[j])
      && (forall field: Field :: Agree(AuthorizationBody(entries[j].record).value, BodyOf(entries[i].record).value, field))
      && forall k | 0 <= k < |entries| && entries[k].receipt.recordId == entries[j].receipt.recordId :: k == j
  {
    hide ChainOk;
    SequencesCount(codec, partition, file);
    var entries := Verified(codec, partition, file).value;
    ChainEntry(codec, partition, entries, i);
    var body := BodyOf(entries[i].record).value;
    j := Find(entries[..i], TextMember(body, WriteAheadRecordId).value).value;
    CompareAllIsAgreement(AuthorizationBody(entries[j].record).value, body);
    forall k | 0 <= k < |entries| && entries[k].receipt.recordId == entries[j].receipt.recordId
      ensures k == j
    {
      RecordIdsIdentifyEntries(codec, partition, entries, k, j);
    }
  }
}
