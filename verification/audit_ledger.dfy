/**
 The audit ledger of crates/kiteframe-audit/src/chain.rs: one append-only file of lines per partition, each
 entry hashed over its sequence number, its predecessor's hash and its canonical record, and the whole file
 verified from the start before every append.

 SHA-256, JSON text, JSON canonicalisation and UTF-8 are parameters. A JSON object's keys are constructors.
 */
module AuditLedger {
  import opened Outcomes
  import opened Text
  import opened ByteStrings

  // ---------------------------------------------------------------- records

  /** The fields on which an outcome record must agree with its authorization record. */
  datatype Field =
    | TenantRef | HumanPrincipalRef | WorkloadPrincipalRef | RunRef | ActorField | AgentField | TaskField | SessionField
    | CapabilityField | ResourceField | AdmissionId | GrantDigest | CatalogIdentity | CatalogDigest | DescriptorDigest
    | AuthorityRevisionDigest | InvocationId | StatusId | IdempotencyKey | ProposalDigest | PortableDigest | LockDigest
    | BindingDigest | ResolvedDigest | TraceId | SpanId | IntendedEffect

  /** In the order in which they are compared. */
  const CORRELATION: seq<Field> :=
    [ TenantRef, HumanPrincipalRef, WorkloadPrincipalRef, RunRef, ActorField, AgentField, TaskField, SessionField,
      CapabilityField, ResourceField, AdmissionId, GrantDigest, CatalogIdentity, CatalogDigest, DescriptorDigest,
      AuthorityRevisionDigest, InvocationId, StatusId, IdempotencyKey, ProposalDigest, PortableDigest, LockDigest,
      BindingDigest, ResolvedDigest, TraceId, SpanId, IntendedEffect ]

  datatype Key =
    | RecordType
    | RecordBody
    | Correlated(field: Field)
    | WriteAheadRecordId
    | OutcomeKind
    | SafeResult
    | SafeError
    | DecisionReference
    | PreconditionRefs
    | EvidenceRefs
    | RecordTimestamp
    | OtherKey(name: string)

  datatype Json =
    | JNull
    | JBool(flag: bool)
    | JNumber(number: int)
    | JText(text: string)
    | JArray(items: seq<Json>)
    | JObject(members: map<Key, Json>)

  type Sequence = n: nat | n <= MAX_WORD

  datatype Persisted = Persisted(partition: string, sequence: Sequence, previousHash: Digest, recordHash: Digest, record: Json)

  datatype Receipt = Receipt(partition: string, sequence: Sequence, previousHash: Digest, recordHash: Digest, recordId: string)

  datatype VerifiedEntry = VerifiedEntry(receipt: Receipt, record: Json)

  datatype LedgerError =
    | InvalidPartition
    | IncompleteFinalEntry
    | EmptyEntry
    | MalformedEntry
    | BrokenChain
    | HashMismatch
    | InvalidReceipt
    | SequenceExhausted
    | TypeMissing
    | BodyMissing
    | TenantMismatch
    | LinkMissing
    | LinkNotFound
    | LinkNotAuthorization
    | AuthorizationIncomplete
    | OutcomeIncomplete
    | FieldMismatch(field: Field)
    | TypeUnsupported

  const NEWLINE: Byte := 10
  const CARRIAGE_RETURN: Byte := 13

  /** The functions the ledger takes from libraries. */
  datatype Codec = Codec(
    canonical: Json -> Bytes,
    encode: Persisted -> Bytes,
    decode: Bytes -> Option<Persisted>,
    hash: Bytes -> Digest,
    hex: Digest -> string,
    utf8: string -> Bytes)

  /** An encoded entry decodes to itself, is not empty, and holds no raw line terminator. */
  ghost predicate Faithful(codec: Codec) {
    forall entry: Persisted :: EncodesAsLine(codec, entry)
  }

  predicate EncodesAsLine(codec: Codec, entry: Persisted) {
    var line := codec.encode(entry);
    codec.decode(line) == Some(entry) && line != [] && NEWLINE !in line && CARRIAGE_RETURN !in line
  }

  // ---------------------------------------------------------------- record identifiers and hashes

  function Digit(n: nat): (c: char)
    requires n < 10
    ensures c != '/'
  {
    '0' + n as char
  }

  function Decimal(n: nat): (text: string)
    ensures '/' !in text
  {
    if n < 10 then [Digit(n)] else Decimal(n / 10) + [Digit(n % 10)]
  }

  function RecordId(codec: Codec, partition: string, sequence: nat, recordHash: Digest): string {
    "audit://" + partition + "/" + Decimal(sequence) + "/" + codec.hex(recordHash)
  }

  /** "kiteframe:audit:v1" and a terminating zero. */
  const AUDIT_HASH_DOMAIN: Bytes :=
    [107, 105, 116, 101, 102, 114, 97, 109, 101, 58, 97, 117, 100, 105, 116, 58, 118, 49, 0]

  /** The bytes `record_hash` feeds to the hasher. */
  function Preimage(codec: Codec, partition: string, sequence: Sequence, previousHash: Digest, record: Json): Bytes {
    AUDIT_HASH_DOMAIN + codec.utf8(partition) + Word(sequence) + previousHash + codec.canonical(record)
  }

  function RecordHash(codec: Codec, partition: string, sequence: Sequence, previousHash: Digest, record: Json): Digest {
    codec.hash(Preimage(codec, partition, sequence, previousHash, record))
  }

  predicate PrintableReference(partition: string) {
    !Blank(partition) && forall i | 0 <= i < |partition| :: '!' <= partition[i] && partition[i] != '\U{007F}'
  }

  predicate ValidPartition(codec: Codec, partition: string) {
    PrintableReference(partition) && |codec.utf8(partition)| <= 512
  }

  // ---------------------------------------------------------------- linkage of outcomes to authorizations

  function Member(json: Json, key: Key): Option<Json> {
    if json.JObject? && key in json.members then Some(json.members[key]) else None
  }

  function TextMember(json: Json, key: Key): Option<string> {
    match Member(json, key)
    case Some(JText(text)) => Some(text)
    case _ => None
  }

  function BodyOf(record: Json): Option<Json> {
    match Member(record, RecordBody)
    case Some(JObject(members)) => Some(JObject(members))
    case _ => None
  }

  function AuthorizationBody(record: Json): Option<Json> {
    if TextMember(record, RecordType) == Some("authorization") then BodyOf(record) else None
  }

  function Compare(authorization: Json, outcome: Json, field: Field): Result<(), LedgerError> {
    var expected, actual := Member(authorization, Correlated(field)), Member(outcome, Correlated(field));
    if expected.None? then Failure(AuthorizationIncomplete)
    else if actual.None? then Failure(OutcomeIncomplete)
    else if expected != actual then Failure(FieldMismatch(field))
    else Success(())
  }

  /** The first of these fields, in order, on which the two bodies do not agree. */
  function CompareAll(authorization: Json, outcome: Json, fields: seq<Field>): Result<(), LedgerError> {
    if fields == [] then Success(())
    else
      var earlier := CompareAll(authorization, outcome, fields[..|fields| - 1]);
      if earlier.Failure? then earlier else Compare(authorization, outcome, fields[|fields| - 1])
  }

  /** The first entry with this ID. */
  function Find(prior: seq<VerifiedEntry>, recordId: string): (found: Option<nat>)
    ensures found.Some? ==> found.value < |prior| && prior[found.value].receipt.recordId == recordId
    ensures found.None? ==> forall i | 0 <= i < |prior| :: prior[i].receipt.recordId != recordId
  {
    if prior == [] then None
    else
      var earlier := Find(prior[..|prior| - 1], recordId);
      if earlier.Some? then earlier
      else if prior[|prior| - 1].receipt.recordId == recordId then Some(|prior| - 1)
      else None
  }

  /** `validate_record_linkage`. */
  function Linkage(record: Json, partition: string, prior: seq<VerifiedEntry>): Result<(), LedgerError> {
    var recordType, body := TextMember(record, RecordType), BodyOf(record);
    if recordType.None? then Failure(TypeMissing)
    else if body.None? then Failure(BodyMissing)
    else if TextMember(body.value, Correlated(TenantRef)) != Some(partition) then Failure(TenantMismatch)
    else if recordType.value == "authorization" then Success(())
    else if recordType.value != "outcome" then Failure(TypeUnsupported)
    else
      var link := TextMember(body.value, WriteAheadRecordId);
      if link.None? then Failure(LinkMissing)
      else
        var found := Find(prior, link.value);
        if found.None? then Failure(LinkNotFound)
        else
          var authorization := AuthorizationBody(prior[found.value].record);
          if authorization.None? then Failure(LinkNotAuthorization)
          else CompareAll(authorization.value, body.value, CORRELATION)
  }

  method ValidateRecordLinkage(record: Json, partition: string, prior: seq<VerifiedEntry>) returns (r: Result<(), LedgerError>)
    ensures r == Linkage(record, partition, prior)
  {
    var recordType := TextMember(record, RecordType);
    if recordType.None? {
      return Failure(TypeMissing);
    }
    var body := BodyOf(record);
    if body.None? {
      return Failure(BodyMissing);
    }
    if TextMember(body.value, Correlated(TenantRef)) != Some(partition) {
      return Failure(TenantMismatch);
    }
    if recordType.value == "authorization" {
      return Success(());
    }
    if recordType.value != "outcome" {
      return Failure(TypeUnsupported);
    }
    var link := TextMember(body.value, WriteAheadRecordId);
    if link.None? {
      return Failure(LinkMissing);
    }
    var i := 0;
    while i < |prior| && prior[i].receipt.recordId != link.value
      invariant 0 <= i <= |prior| && Find(prior[..i], link.value).None?
    {
      assert prior[..i + 1][..i] == prior[..i];
      i := i + 1;
    }
    FindAt(prior, link.value, i);
    if i == |prior| {
      return Failure(LinkNotFound);
    }
    var authorization := AuthorizationBody(prior[i].record);
    if authorization.None? {
      return Failure(LinkNotAuthorization);
    }
    for k := 0 to |CORRELATION|
      invariant CompareAll(authorization.value, body.value, CORRELATION[..k]).Success?
    {
      var compared := Compare(authorization.value, body.value, CORRELATION[k]);
      assert CORRELATION[..k + 1][..k] == CORRELATION[..k];
      if compared.Failure? {
        FirstDisagreement(authorization.value, body.value, CORRELATION, k);
        return compared;
      }
    }
    assert CORRELATION[..|CORRELATION|] == CORRELATION;
    r := Success(());
  }

  lemma {:induction false} FindAt(prior: seq<VerifiedEntry>, recordId: string, i: nat)
    requires i <= |prior| && Find(prior[..i], recordId).None?
    requires i < |prior| ==> prior[i].receipt.recordId == recordId
    ensures Find(prior, recordId) == if i == |prior| then None else Some(i)
  {
    if i == |prior| {
      assert prior[..i] == prior;
    } else if i < |prior| - 1 {
      assert prior[..|prior| - 1][..i] == prior[..i];
      FindAt(prior[..|prior| - 1], recordId, i);
    }
  }

  lemma {:induction false} FirstDisagreement(authorization: Json, outcome: Json, fields: seq<Field>, k: nat)
    requires k < |fields| && CompareAll(authorization, outcome, fields[..k]).Success?
    requires Compare(authorization, outcome, fields[k]).Failure?
    ensures CompareAll(authorization, outcome, fields) == Compare(authorization, outcome, fields[k])
  {
    if k < |fields| - 1 {
      assert fields[..|fields| - 1][..k] == fields[..k];
      FirstDisagreement(authorization, outcome, fields[..|fields| - 1], k);
    }
  }

  lemma {:induction false} CompareAllMeans(authorization: Json, outcome: Json, fields: seq<Field>)
    ensures CompareAll(authorization, outcome, fields).Success? <==>
            forall i | 0 <= i < |fields| :: Compare(authorization, outcome, fields[i]).Success?
  {
    if fields != [] {
      CompareAllMeans(authorization, outcome, fields[..|fields| - 1]);
    }
  }

  // ---------------------------------------------------------------- reading and verifying

  function StripReturn(line: Bytes): Bytes {
    if line != [] && line[|line| - 1] == CARRIAGE_RETURN then line[..|line| - 1] else line
  }

  function NewlineAt(file: Bytes): (i: nat)
    ensures i <= |file| && NEWLINE !in file[..i]
    ensures i < |file| ==> file[i] == NEWLINE
  {
    if file == [] || file[0] == NEWLINE then 0
    else
      var rest := NewlineAt(file[1..]);
      assert file[..rest + 1] == [file[0]] + file[1..][..rest];
      rest + 1
  }

  /** `BufRead::lines`. */
  function Lines(file: Bytes): seq<Bytes> {
    if file == [] then []
    else
      var i := NewlineAt(file);
      if i == |file| then [StripReturn(file)] else [StripReturn(file[..i])] + Lines(file[i + 1..])
  }

  datatype Cursor = Cursor(verified: seq<VerifiedEntry>, expectedSequence: Sequence, expectedPrevious: Digest)

  const START := Cursor([], 1, ZERO_DIGEST)

  function VerifyLine(codec: Codec, partition: string, cursor: Cursor, line: Bytes): Result<Cursor, LedgerError> {
    if line == [] then Failure(EmptyEntry)
    else
      var decoded := codec.decode(line);
      if decoded.None? then Failure(MalformedEntry)
      else
        var entry := decoded.value;
        if entry.partition != partition || entry.sequence != cursor.expectedSequence || entry.previousHash != cursor.expectedPrevious then
          Failure(BrokenChain)
        else if entry.recordHash != RecordHash(codec, partition, entry.sequence, entry.previousHash, entry.record) then
          Failure(HashMismatch)
        else if !PrintableReference(partition) || entry.sequence == 0 then Failure(InvalidReceipt)
        else
          var receipt := Receipt(partition, entry.sequence, entry.previousHash, entry.recordHash,
                                 RecordId(codec, partition, entry.sequence, entry.recordHash));
          var linked := Linkage(entry.record, partition, cursor.verified);
          if linked.Failure? then Failure(linked.error)
          else if cursor.expectedSequence == MAX_WORD then Failure(SequenceExhausted)
          else Success(Cursor(cursor.verified + [VerifiedEntry(receipt, entry.record)], cursor.expectedSequence + 1, entry.recordHash))
  }

  function VerifyLines(codec: Codec, partition: string, lines: seq<Bytes>): Result<Cursor, LedgerError> {
    if lines == [] then Success(START)
    else
      match VerifyLines(codec, partition, lines[..|lines| - 1])
      case Failure(error) => Failure(error)
      case Success(cursor) => VerifyLine(codec, partition, cursor, lines[|lines| - 1])
  }

  function Verified(codec: Codec, partition: string, file: Bytes): Result<seq<VerifiedEntry>, LedgerError> {
    if file != [] && file[|file| - 1] != NEWLINE then Failure(IncompleteFinalEntry)
    else
      match VerifyLines(codec, partition, Lines(file))
      case Failure(error) => Failure(error)
      case Success(cursor) => Success(cursor.verified)
  }

  method ReadAndVerify(codec: Codec, partition: string, file: Bytes) returns (r: Result<seq<VerifiedEntry>, LedgerError>)
    ensures r == Verified(codec, partition, file)
  {
    hide Linkage, RecordHash, RecordId, PrintableReference;
    if |file| > 0 && file[|file| - 1] != NEWLINE {
      return Failure(IncompleteFinalEntry);
    }
    var verified: seq<VerifiedEntry> := [];
    var expectedSequence: Sequence := 1;
    var expectedPrevious: Digest := ZERO_DIGEST;
    var lines := Lines(file);
    for i := 0 to |lines|
      invariant VerifyLines(codec, partition, lines[..i]) == Success(Cursor(verified, expectedSequence, expectedPrevious))
    {
      var line := lines[i];
      ghost var cursor := Cursor(verified, expectedSequence, expectedPrevious);
      assert lines[..i + 1][..i] == lines[..i];
      FailureStays(codec, partition, lines, i + 1);
      if line == [] {
        return Failure(EmptyEntry);
      }
      var decoded := codec.decode(line);
      if decoded.None? {
        return Failure(MalformedEntry);
      }
      var entry := decoded.value;
      if entry.partition != partition || entry.sequence != expectedSequence || entry.previousHash != expectedPrevious {
        return Failure(BrokenChain);
      }
      var expectedHash := RecordHash(codec, partition, entry.sequence, entry.previousHash, entry.record);
      if entry.recordHash != expectedHash {
        return Failure(HashMismatch);
      }
      if !PrintableReference(entry.partition) || entry.sequence == 0 {
        return Failure(InvalidReceipt);
      }
      var recordId := RecordId(codec, entry.partition, entry.sequence, entry.recordHash);
      var receipt := Receipt(entry.partition, entry.sequence, entry.previousHash, entry.recordHash, recordId);
      var linked := ValidateRecordLinkage(entry.record, partition, verified);
      if linked.Failure? {
        return Failure(linked.error);
      }
      if expectedSequence == MAX_WORD {
        return Failure(SequenceExhausted);
      }
      expectedSequence := expectedSequence + 1;
      expectedPrevious := receipt.recordHash;
      verified := verified + [VerifiedEntry(receipt, entry.record)];
    }
    assert lines[..|lines|] == lines;
    r := Success(verified);
  }

  /** Reading stops at the first line it rejects. */
  lemma {:induction false} FailureStays(codec: Codec, partition: string, lines: seq<Bytes>, k: nat)
    requires k <= |lines|
    ensures VerifyLines(codec, partition, lines[..k]).Failure? ==> VerifyLines(codec, partition, lines) == VerifyLines(codec, partition, lines[..k])
    decreases |lines|
  {
    if k == |lines| {
      assert lines[..k] == lines;
    } else {
      assert lines[..|lines| - 1][..k] == lines[..k];
      FailureStays(codec, partition, lines[..|lines| - 1], k);
    }
  }

  // ---------------------------------------------------------------- what a verified ledger is

  function PreviousHash(entries: seq<VerifiedEntry>): Digest {
    if entries == [] then ZERO_DIGEST else entries[|entries| - 1].receipt.recordHash
  }

  /** The entry that continues a chain of this many entries with this record. */
  function NextEntry(codec: Codec, partition: string, entries: seq<VerifiedEntry>, record: Json): VerifiedEntry
    requires |entries| < MAX_WORD
  {
    var sequence := |entries| + 1;
    var previousHash := PreviousHash(entries);
    var recordHash := RecordHash(codec, partition, sequence, previousHash, record);
    VerifiedEntry(Receipt(partition, sequence, previousHash, recordHash, RecordId(codec, partition, sequence, recordHash)), record)
  }

  /** Sequences count from one, hashes chain from zero, and every record links properly to what precedes it. */
  predicate ChainOk(codec: Codec, partition: string, entries: seq<VerifiedEntry>) {
    entries == [] ||
    (var last := |entries| - 1;
     && ChainOk(codec, partition, entries[..last])
     && last < MAX_WORD
     && entries[last] == NextEntry(codec, partition, entries[..last], entries[last].record)
     && Linkage(entries[last].record, partition, entries[..last]).Success?)
  }

  function Persist(entry: VerifiedEntry): Persisted {
    Persisted(entry.receipt.partition, entry.receipt.sequence, entry.receipt.previousHash, entry.receipt.recordHash, entry.record)
  }

  /** The lines of a file to which these entries were appended. */
  function EncodedLines(codec: Codec, entries: seq<VerifiedEntry>): (lines: seq<Bytes>)
    ensures |lines| == |entries|
  {
    if entries == [] then []
    else EncodedLines(codec, entries[..|entries| - 1]) + [codec.encode(Persist(entries[|entries| - 1]))]
  }

  function Written(codec: Codec, entries: seq<VerifiedEntry>): Bytes {
    if entries == [] then []
    else Written(codec, entries[..|entries| - 1]) + codec.encode(Persist(entries[|entries| - 1])) + [NEWLINE]
  }

  predicate CursorOk(codec: Codec, partition: string, cursor: Cursor) {
    && ChainOk(codec, partition, cursor.verified)
    && |cursor.verified| == cursor.expectedSequence - 1 < MAX_WORD
    && cursor.expectedPrevious == PreviousHash(cursor.verified)
  }

  lemma AcceptedLineContinues(codec: Codec, partition: string, cursor: Cursor, line: Bytes)
    requires CursorOk(codec, partition, cursor) && VerifyLine(codec, partition, cursor, line).Success?
    ensures
      var after := VerifyLine(codec, partition, cursor, line).value;
      && CursorOk(codec, partition, after)
      && |after.verified| == |cursor.verified| + 1
      && cursor.verified == after.verified[..|cursor.verified|]
      && codec.decode(line) == Some(Persist(after.verified[|cursor.verified|]))
  {
    hide Linkage, RecordHash, RecordId, PrintableReference;
    var after := VerifyLine(codec, partition, cursor, line).value;
    assert after.verified[..|cursor.verified|] == cursor.verified;
  }

  /** Line by line, the lines decode to the entries. */
  predicate DecodeTo(codec: Codec, lines: seq<Bytes>, entries: seq<VerifiedEntry>) {
    if lines == [] then entries == []
    else
      var last := |lines| - 1;
      |entries| == |lines| && DecodeTo(codec, lines[..last], entries[..last]) && codec.decode(lines[last]) == Some(Persist(entries[last]))
  }

  /** What the reading loop has established when it accepts these lines. */
  lemma {:induction false} AcceptedLinesFormAChain(codec: Codec, partition: string, lines: seq<Bytes>)
    requires VerifyLines(codec, partition, lines).Success?
    ensures
      var cursor := VerifyLines(codec, partition, lines).value;
      CursorOk(codec, partition, cursor) && |cursor.verified| == |lines| && DecodeTo(codec, lines, cursor.verified)
    decreases |lines|
  {
    hide VerifyLine;
    if lines == [] {
      assert CursorOk(codec, partition, START);
    } else {
      hide CursorOk, Persist;
      var last := |lines| - 1;
      AcceptedLinesFormAChain(codec, partition, lines[..last]);
      AcceptedLineContinues(codec, partition, VerifyLines(codec, partition, lines[..last]).value, lines[last]);
    }
  }

  lemma NextLineIsAccepted(codec: Codec, partition: string, entries: seq<VerifiedEntry>, record: Json)
    requires Faithful(codec) && PrintableReference(partition) && |entries| < MAX_WORD && Linkage(record, partition, entries).Success?
    ensures
      var entry := NextEntry(codec, partition, entries, record);
      VerifyLine(codec, partition, Cursor(entries, |entries| + 1, PreviousHash(entries)), codec.encode(Persist(entry))) ==
      if |entries| + 1 < MAX_WORD then Success(Cursor(entries + [entry], |entries| + 2, entry.receipt.recordHash))
      else Failure(SequenceExhausted)
  {
    hide Linkage, RecordHash, RecordId, PrintableReference;
    assert EncodesAsLine(codec, Persist(NextEntry(codec, partition, entries, record)));
  }

  /** A chain's encoded lines are accepted, and yield the chain, unless they are 2^64 - 1 or more. */
  lemma {:induction false} ChainLinesAreAccepted(codec: Codec, partition: string, entries: seq<VerifiedEntry>)
    requires Faithful(codec) && PrintableReference(partition) && ChainOk(codec, partition, entries)
    ensures VerifyLines(codec, partition, EncodedLines(codec, entries)) ==
            if |entries| < MAX_WORD then Success(Cursor(entries, |entries| + 1, PreviousHash(entries))) else Failure(SequenceExhausted)
  {
    hide Linkage, VerifyLine, PrintableReference, NextEntry;
    if entries != [] {
      var last := |entries| - 1;
      ChainLinesAreAccepted(codec, partition, entries[..last]);
      var lines := EncodedLines(codec, entries);
      assert lines[..last] == EncodedLines(codec, entries[..last]);
      assert entries[..last] + [entries[last]] == entries;
      NextLineIsAccepted(codec, partition, entries[..last], entries[last].record);
    }
  }

  lemma {:induction false} FirstNewline(file: Bytes, i: nat)
    requires i < |file| && file[i] == NEWLINE && NEWLINE !in file[..i]
    ensures NewlineAt(file) == i
  {
    if i > 0 {
      assert file[0] == file[..i][0];
      assert file[1..][..i - 1] == file[..i][1..];
      FirstNewline(file[1..], i - 1);
    }
  }

  lemma {:induction false} NewlineNoLater(file: Bytes, k: nat)
    requires k < |file| && file[k] == NEWLINE
    ensures NewlineAt(file) <= k
  {
    if k > 0 && file[0] != NEWLINE {
      NewlineNoLater(file[1..], k - 1);
    }
  }

  lemma NewlineOf(line: Bytes, rest: Bytes)
    requires NEWLINE !in line
    ensures NewlineAt(line + [NEWLINE] + rest) == |line|
  {
    var file := line + [NEWLINE] + rest;
    assert file[|line|] == NEWLINE && file[..|line|] == line;
    FirstNewline(file, |line|);
  }

  lemma LinesHead(line: Bytes, rest: Bytes)
    requires NEWLINE !in line
    ensures Lines(line + [NEWLINE] + rest) == [StripReturn(line)] + Lines(rest)
  {
    hide StripReturn;
    var file := line + [NEWLINE] + rest;
    NewlineOf(line, rest);
    assert file[..|line|] == line && file[|line| + 1..] == rest;
  }

  /** Appending a line to a file that ends in a newline adds that line. */
  lemma {:induction false} LinesAppend(file: Bytes, line: Bytes)
    requires file == [] || file[|file| - 1] == NEWLINE
    requires NEWLINE !in line && CARRIAGE_RETURN !in line
    ensures Lines(file + line + [NEWLINE]) == Lines(file) + [line]
    decreases |file|
  {
    hide Lines;
    if file == [] {
      LinesHead(line, []);
      LinesOfNothing();
      assert file + line + [NEWLINE] == line + [NEWLINE] + [];
    } else {
      NewlineNoLater(file, |file| - 1);
      var i := NewlineAt(file);
      var head, rest := file[..i], file[i + 1..];
      assert file == head + [NEWLINE] + rest;
      assert file + line + [NEWLINE] == head + [NEWLINE] + (rest + line + [NEWLINE]);
      LinesHead(head, rest);
      LinesHead(head, rest + line + [NEWLINE]);
      LinesAppend(rest, line);
    }
  }

  lemma LinesOfNothing()
    ensures Lines([]) == []
  {}

  lemma {:induction false} WrittenLines(codec: Codec, entries: seq<VerifiedEntry>)
    requires Faithful(codec)
    ensures Lines(Written(codec, entries)) == EncodedLines(codec, entries)
    ensures Written(codec, entries) == [] || Written(codec, entries)[|Written(codec, entries)| - 1] == NEWLINE
  {
    if entries != [] {
      var last := |entries| - 1;
      WrittenLines(codec, entries[..last]);
      assert EncodesAsLine(codec, Persist(entries[last]));
      LinesAppend(Written(codec, entries[..last]), codec.encode(Persist(entries[last])));
    }
  }

  /** A file of encoded entries verifies as exactly those entries if and only if they form a chain of fewer than 2^64 - 1. */
  lemma VerifiesExactlyChains(codec: Codec, partition: string, entries: seq<VerifiedEntry>)
    requires Faithful(codec) && PrintableReference(partition)
    ensures Verified(codec, partition, Written(codec, entries)) == Success(entries) <==>
            ChainOk(codec, partition, entries) && |entries| < MAX_WORD
  {
    WrittenLines(codec, entries);
    if Verified(codec, partition, Written(codec, entries)) == Success(entries) {
      AcceptedLinesFormAChain(codec, partition, EncodedLines(codec, entries));
    }
    if ChainOk(codec, partition, entries) {
      ChainLinesAreAccepted(codec, partition, entries);
    }
  }

  // ---------------------------------------------------------------- appending

  /** `append_sync` on one partition's file; a refused record leaves the file as it was. */
  function Append(codec: Codec, partition: string, file: Bytes, record: Json): (Bytes, Result<Receipt, LedgerError>) {
    if !ValidPartition(codec, partition) then (file, Failure(InvalidPartition))
    else
      var existing := Verified(codec, partition, file);
      if existing.Failure? then (file, Failure(existing.error))
      else
        var linked := Linkage(record, partition, existing.value);
        if linked.Failure? then (file, Failure(linked.error))
        else if |existing.value| >= MAX_WORD then (file, Failure(SequenceExhausted))
        else
          var entry := NextEntry(codec, partition, existing.value, record);
          (file + codec.encode(Persist(entry)) + [NEWLINE], Success(entry.receipt))
  }

  lemma SequencesCount(codec: Codec, partition: string, file: Bytes)
    requires Verified(codec, partition, file).Success?
    ensures
      var entries := Verified(codec, partition, file).value;
      && ChainOk(codec, partition, entries)
      && |entries| < MAX_WORD
      && (entries != [] ==> entries[|entries| - 1].receipt.sequence == |entries|)
  {
    AcceptedLinesFormAChain(codec, partition, Lines(file));
  }

  /** The ledger directory: one file per partition, named by the partition's digest. */
  class FileAuditLedger {
    const codec: Codec
    const fileName: string -> Digest
    var files: map<Digest, Bytes>

    constructor (codec: Codec, fileName: string -> Digest)
      ensures this.codec == codec && this.fileName == fileName && files == map[]
    {
      this.codec := codec;
      this.fileName := fileName;
      files := map[];
    }

    function FileOf(partition: string): Bytes
      reads this
    {
      if fileName(partition) in files then files[fileName(partition)] else []
    }

    method VerifyPartition(partition: string) returns (r: Result<seq<VerifiedEntry>, LedgerError>)
      ensures r == if ValidPartition(codec, partition) then Verified(codec, partition, FileOf(partition)) else Failure(InvalidPartition)
    {
      if !ValidPartition(codec, partition) {
        return Failure(InvalidPartition);
      }
      if fileName(partition) !in files {
        return Success([]);
      }
      r := ReadAndVerify(codec, partition, files[fileName(partition)]);
    }

    method AppendSync(partition: string, record: Json) returns (r: Result<Receipt, LedgerError>)
      modifies this
      ensures (FileOf(partition), r) == Append(codec, partition, old(FileOf(partition)), record)
      ensures forall other | fileName(other) != fileName(partition) :: FileOf(other) == old(FileOf(other))
    {
      hide Linkage, RecordHash, RecordId, Verified;
      if !ValidPartition(codec, partition) {
        return Failure(InvalidPartition);
      }
      var path := fileName(partition);
      if path !in files {
        files := files[path := []];
      }
      var existing := ReadAndVerify(codec, partition, files[path]);
      if existing.Failure? {
        return Failure(existing.error);
      }
      var linked := ValidateRecordLinkage(record, partition, existing.value);
      if linked.Failure? {
        return Failure(linked.error);
      }
      SequencesCount(codec, partition, files[path]);
      var sequence: Sequence := 1;
      var previousHash: Digest := ZERO_DIGEST;
      if |existing.value| > 0 {
        var last := existing.value[|existing.value| - 1];
        if last.receipt.sequence == MAX_WORD {
          return Failure(SequenceExhausted);
        }
        sequence := last.receipt.sequence + 1;
        previousHash := last.receipt.recordHash;
      }
      var recordHash := RecordHash(codec, partition, sequence, previousHash, record);
      var receipt := Receipt(partition, sequence, previousHash, recordHash, RecordId(codec, partition, sequence, recordHash));
      var line := codec.encode(Persisted(partition, sequence, previousHash, recordHash, record));
      files := files[path := files[path] + line + [NEWLINE]];
      r := Success(receipt);
    }
  }

  /** The file after appending these records in order, if every append succeeds. */
  function AppendAll(codec: Codec, partition: string, records: seq<Json>): Result<Bytes, LedgerError> {
    if records == [] then Success([])
    else
      match AppendAll(codec, partition, records[..|records| - 1])
      case Failure(error) => Failure(error)
      case Success(file) =>
        var (after, receipt) := Append(codec, partition, file, records[|records| - 1]);
        if receipt.Failure? then Failure(receipt.error) else Success(after)
  }

  /** The entries those appends create. */
  function Chain(codec: Codec, partition: string, records: seq<Json>): (entries: seq<VerifiedEntry>)
    requires |records| <= MAX_WORD
    ensures |entries| == |records|
    ensures forall i | 0 <= i < |records| :: entries[i].record == records[i] && entries[i].receipt.sequence == i + 1
  {
    if records == [] then []
    else
      var earlier := Chain(codec, partition, records[..|records| - 1]);
      earlier + [NextEntry(codec, partition, earlier, records[|records| - 1])]
  }

  lemma AppendContinues(codec: Codec, partition: string, entries: seq<VerifiedEntry>, record: Json)
    requires Faithful(codec) && ChainOk(codec, partition, entries)
    requires entries == [] || PrintableReference(partition)
    requires Append(codec, partition, Written(codec, entries), record).1.Success?
    ensures |entries| < MAX_WORD && PrintableReference(partition)
    ensures
      var longer := entries + [NextEntry(codec, partition, entries, record)];
      ChainOk(codec, partition, longer) && Append(codec, partition, Written(codec, entries), record).0 == Written(codec, longer)
  {
    hide Linkage, RecordHash, RecordId, PrintableReference;
    WrittenLines(codec, entries);
    if entries != [] {
      ChainLinesAreAccepted(codec, partition, entries);
    }
    var longer := entries + [NextEntry(codec, partition, entries, record)];
    assert longer[..|entries|] == entries;
  }

  lemma {:induction false} AppendsWriteTheChain(codec: Codec, partition: string, records: seq<Json>)
    requires Faithful(codec) && AppendAll(codec, partition, records).Success?
    ensures |records| <= MAX_WORD && (records != [] ==> PrintableReference(partition))
    ensures
      var entries := Chain(codec, partition, records);
      AppendAll(codec, partition, records).value == Written(codec, entries) && ChainOk(codec, partition, entries)
    decreases |records|
  {
    hide Linkage, RecordHash, RecordId, PrintableReference, Append, Written, ChainOk;
    if records == [] {
      NothingIsAChain(codec, partition);
    } else {
      var last := |records| - 1;
      AppendsWriteTheChain(codec, partition, records[..last]);
      AppendContinues(codec, partition, Chain(codec, partition, records[..last]), records[last]);
    }
  }

  lemma NothingIsAChain(codec: Codec, partition: string)
    ensures Written(codec, []) == [] && ChainOk(codec, partition, [])
  {}

  /**
   Starting from nothing, successful appends leave exactly their records, numbered from one and chained. The
   file verifies as them until the last is numbered u64::MAX; that entry is written, never reads back, and
   nothing is ever appended after it.
   */
  lemma RoundTrip(codec: Codec, partition: string, records: seq<Json>)
    requires Faithful(codec) && AppendAll(codec, partition, records).Success?
    ensures |records| <= MAX_WORD
    ensures
      var file := AppendAll(codec, partition, records).value;
      var entries := Chain(codec, partition, records);
      && file == Written(codec, entries)
      && ChainOk(codec, partition, entries)
      && Verified(codec, partition, file) == if |records| < MAX_WORD then Success(entries) else Failure(SequenceExhausted)
  {
    hide Linkage, RecordHash, RecordId, PrintableReference, Append, Written, ChainOk;
    AppendsWriteTheChain(codec, partition, records);
    var entries := Chain(codec, partition, records);
    WrittenLines(codec, entries);
    if records != [] {
      ChainLinesAreAccepted(codec, partition, entries);
    }
  }

  // ---------------------------------------------------------------- a file cut short

  lemma {:induction false} LinesOfPrefix(file: Bytes, k: nat)
    requires 0 < k <= |file| && file[k - 1] == NEWLINE
    ensures Lines(file[..k]) <= Lines(file)
    decreases |file|
  {
    var i := NewlineAt(file);
    NewlineNoLater(file, k - 1);
    assert file[..k][..i] == file[..i];
    FirstNewline(file[..k], i);
    var rest := file[i + 1..];
    assert file[..k][i + 1..] == rest[..k - i - 1];
    if k - i - 1 == 0 {
      assert rest[..0] == [];
    } else {
      LinesOfPrefix(rest, k - i - 1);
    }
  }

  lemma {:induction false} AcceptedPrefix(codec: Codec, partition: string, lines: seq<Bytes>, k: nat)
    requires k <= |lines| && VerifyLines(codec, partition, lines).Success?
    ensures
      var before := VerifyLines(codec, partition, lines[..k]);
      before.Success? && before.value.verified <= VerifyLines(codec, partition, lines).value.verified
    decreases |lines|
  {
    if k == |lines| {
      assert lines[..k] == lines;
    } else {
      assert lines[..|lines| - 1][..k] == lines[..k];
      AcceptedPrefix(codec, partition, lines[..|lines| - 1], k);
    }
  }

  /** A verified ledger cut at any byte is either rejected or verifies as a prefix of itself. */
  lemma TruncationIsDetectedOrAPrefix(codec: Codec, partition: string, file: Bytes, k: nat)
    requires Verified(codec, partition, file).Success? && k <= |file|
    ensures
      var cut := Verified(codec, partition, file[..k]);
      cut.Failure? || cut.value <= Verified(codec, partition, file).value
  {
    if k > 0 && file[k - 1] == NEWLINE {
      LinesOfPrefix(file, k);
      var kept := |Lines(file[..k])|;
      assert Lines(file)[..kept] == Lines(file[..k]);
      AcceptedPrefix(codec, partition, Lines(file), kept);
    }
  }

  // ---------------------------------------------------------------- the head commits to the history

  /** What `record_hash` hashed for each entry of a chain. */
  function Preimages(codec: Codec, partition: string, entries: seq<VerifiedEntry>): (preimages: seq<Bytes>)
    ensures |preimages| == |entries|
  {
    if entries == [] then []
    else
      var receipt := entries[|entries| - 1].receipt;
      Preimages(codec, partition, entries[..|entries| - 1])
      + [Preimage(codec, partition, receipt.sequence, receipt.previousHash, entries[|entries| - 1].record)]
  }

  /** The hash function does not collide on the inputs it was given. */
  ghost predicate CollisionFree(codec: Codec, inputs: seq<Bytes>, others: seq<Bytes>) {
    forall i, j | 0 <= i < |inputs| && 0 <= j < |others| :: codec.hash(inputs[i]) == codec.hash(others[j]) ==> inputs[i] == others[j]
  }

  function CanonicalRecords(codec: Codec, entries: seq<VerifiedEntry>): (records: seq<Bytes>)
    ensures |records| == |entries|
    ensures forall i | 0 <= i < |entries| :: records[i] == codec.canonical(entries[i].record)
  {
    if entries == [] then []
    else CanonicalRecords(codec, entries[..|entries| - 1]) + [codec.canonical(entries[|entries| - 1].record)]
  }

  /** Sequence and previous hash have fixed widths, so equal inputs are equal part by part. */
  lemma PreimageInjective(codec: Codec, partition: string, m: Sequence, n: Sequence, previous: Digest, previous': Digest, record: Json, record': Json)
    requires Preimage(codec, partition, m, previous, record) == Preimage(codec, partition, n, previous', record')
    ensures m == n && previous == previous' && codec.canonical(record) == codec.canonical(record')
  {
    var head := AUDIT_HASH_DOMAIN + codec.utf8(partition);
    SplitAtSameLength(head + Word(m) + previous, codec.canonical(record), head + Word(n) + previous', codec.canonical(record'));
    SplitAtSameLength(head + Word(m), previous, head + Word(n), previous');
    SplitAtSameLength(head, Word(m), head, Word(n));
    WordInjective(m, n);
  }

  lemma HeadOfChain(codec: Codec, partition: string, entries: seq<VerifiedEntry>)
    requires ChainOk(codec, partition, entries) && entries != []
    ensures
      var last := |entries| - 1;
      && codec.hash(Preimages(codec, partition, entries)[last]) == PreviousHash(entries)
      && entries[last].receipt.sequence == |entries|
      && entries[last].receipt.previousHash == PreviousHash(entries[..last])
      && ChainOk(codec, partition, entries[..last])
  {
    hide Linkage, RecordId;
  }

  lemma CollisionFreePrefix(codec: Codec, inputs: seq<Bytes>, input: Bytes, others: seq<Bytes>, other: Bytes)
    requires CollisionFree(codec, inputs + [input], others + [other])
    ensures CollisionFree(codec, inputs, others)
    ensures codec.hash(input) == codec.hash(other) ==> input == other
  {
    var longer, longer' := inputs + [input], others + [other];
    assert longer[|inputs|] == input && longer'[|others|] == other;
    forall i, j | 0 <= i < |inputs| && 0 <= j < |others| && codec.hash(inputs[i]) == codec.hash(others[j])
      ensures inputs[i] == others[j]
    {
      assert longer[i] == inputs[i] && longer'[j] == others[j];
    }
  }

  /** Two chains of one partition whose heads have one hash are equally long and hold the same canonical records. */
  lemma {:induction false} HeadCommitsToHistory(codec: Codec, partition: string, one: seq<VerifiedEntry>, other: seq<VerifiedEntry>)
    requires ChainOk(codec, partition, one) && ChainOk(codec, partition, other) && one != [] && other != []
    requires PreviousHash(one) == PreviousHash(other)
    requires CollisionFree(codec, Preimages(codec, partition, one), Preimages(codec, partition, other))
    ensures |one| == |other| && CanonicalRecords(codec, one) == CanonicalRecords(codec, other)
    decreases |one|
  {
    hide ChainOk, Preimage, CollisionFree, PreviousHash;
    var m, n := |one| - 1, |other| - 1;
    HeadOfChain(codec, partition, one);
    HeadOfChain(codec, partition, other);
    var p, q := Preimages(codec, partition, one), Preimages(codec, partition, other);
    CollisionFreePrefix(codec, Preimages(codec, partition, one[..m]), p[m], Preimages(codec, partition, other[..n]), q[n]);
    PreimageInjective(codec, partition, one[m].receipt.sequence, other[n].receipt.sequence,
                      one[m].receipt.previousHash, other[n].receipt.previousHash, one[m].record, other[n].record);
    if m > 0 {
      HeadCommitsToHistory(codec, partition, one[..m], other[..n]);
    }
  }

  /**
   Two files of one partition that verify and end in the same hash record the same history, unless the hash
   collided on what it was given in checking them.
   */
  lemma VerifiedFilesCommitToHistory(codec: Codec, partition: string, one: Bytes, other: Bytes)
    requires Verified(codec, partition, one).Success? && Verified(codec, partition, other).Success?
    requires
      var p, q := Verified(codec, partition, one).value, Verified(codec, partition, other).value;
      && p != [] && q != [] && p[|p| - 1].receipt.recordHash == q[|q| - 1].receipt.recordHash
      && CollisionFree(codec, Preimages(codec, partition, p), Preimages(codec, partition, q))
    ensures
      var p, q := Verified(codec, partition, one).value, Verified(codec, partition, other).value;
      |p| == |q| && CanonicalRecords(codec, p) == CanonicalRecords(codec, q)
  {
    hide Verified, ChainOk, CollisionFree;
    SequencesCount(codec, partition, one);
    SequencesCount(codec, partition, other);
    HeadCommitsToHistory(codec, partition, Verified(codec, partition, one).value, Verified(codec, partition, other).value);
  }
}
