/**
 The two records `execute_effect` writes to the audit ledger (crates/kiteframe-provider/src/invocation.rs),
 their structs and their serialisation (crates/kiteframe-provider/src/audit.rs): the outcome record always
 links to the authorization record.
 */
module AuditRecords {
  import opened Outcomes
  import opened ByteStrings
  import opened Contract
  import opened AuditLedger
  import opened AuditLinkage

  // ---------------------------------------------------------------- what the records are built from

  datatype Principals = Principals(
    tenantRef: string, humanRef: string, workloadRef: string, runRef: string,
    actorRef: string, agentRef: string, taskRef: string, sessionRef: string)

  datatype Request = Request(
    invocationId: string, capability: CapabilityIdentity, selectedResource: string, admissionId: string, grantDigest: string,
    preconditions: seq<string>, idempotencyKey: string, traceId: string, spanId: string)

  datatype Catalog = Catalog(name: string, revision: string)

  datatype GrantSet = GrantSet(catalogIdentity: Catalog, catalogDigest: string)

  datatype Locked = Locked(descriptorDigest: string, effect: Effect)

  datatype EffectDigests = EffectDigests(portableDigest: string, lockDigest: string, bindingDigest: string, resolvedDigest: string)

  /** The arguments and early results of one call of `execute_effect`. */
  datatype EffectCall = EffectCall(
    principals: Principals, request: Request, grantSet: GrantSet, locked: Locked, digests: EffectDigests,
    authorityRevisionDigest: string, proposalDigest: string, decisionRef: string, evidenceRefs: map<string, string>)
  {
    function StatusId(): string {
      "status://" + request.invocationId
    }
  }

  // ---------------------------------------------------------------- the records

  datatype AuthorizationAuditRecord = AuthorizationAuditRecord(
    tenantRef: string,
    humanPrincipalRef: string,
    workloadPrincipalRef: string,
    runRef: string,
    actor: string,
    agent: string,
    task: string,
    session: string,
    capability: CapabilityIdentity,
    resource: string,
    admissionId: string,
    grantDigest: string,
    catalogIdentity: Catalog,
    catalogDigest: string,
    descriptorDigest: string,
    authorityRevisionDigest: string,
    decisionReference: string,
    invocationId: string,
    statusId: string,
    idempotencyKey: string,
    preconditionRefs: seq<string>,
    evidenceRefs: map<string, string>,
    proposalDigest: string,
    portableDigest: string,
    lockDigest: string,
    bindingDigest: string,
    resolvedDigest: string,
    traceId: string,
    spanId: string,
    intendedEffect: Effect,
    timestamp: Timestamp)

  datatype OutcomeAuditKind = Completion | Failure | Suspension | OutcomeUnknown

  datatype OutcomeAuditRecord = OutcomeAuditRecord(
    writeAheadRecordId: string,
    outcome: OutcomeAuditKind,
    tenantRef: string,
    humanPrincipalRef: string,
    workloadPrincipalRef: string,
    runRef: string,
    actor: string,
    agent: string,
    task: string,
    session: string,
    capability: CapabilityIdentity,
    resource: string,
    admissionId: string,
    grantDigest: string,
    catalogIdentity: Catalog,
    catalogDigest: string,
    descriptorDigest: string,
    authorityRevisionDigest: string,
    invocationId: string,
    statusId: string,
    idempotencyKey: string,
    proposalDigest: string,
    portableDigest: string,
    lockDigest: string,
    bindingDigest: string,
    resolvedDigest: string,
    traceId: string,
    spanId: string,
    intendedEffect: Effect,
    safeResult: Option<Json>,
    safeError: Option<Json>,
    timestamp: Timestamp)

  /** What `prepare_effect_outcome` made of the operation's answer, as far as the audit record shows it. */
  datatype PreparedAudit = PreparedAudit(auditKind: OutcomeAuditKind, safeResult: Option<Json>, safeError: Option<Json>)

  function AuthorizationOf(call: EffectCall, now: Timestamp): AuthorizationAuditRecord {
    AuthorizationAuditRecord(
      tenantRef := call.principals.tenantRef,
      humanPrincipalRef := call.principals.humanRef,
      workloadPrincipalRef := call.principals.workloadRef,
      runRef := call.principals.runRef,
      actor := call.principals.actorRef,
      agent := call.principals.agentRef,
      task := call.principals.taskRef,
      session := call.principals.sessionRef,
      capability := call.request.capability,
      resource := call.request.selectedResource,
      admissionId := call.request.admissionId,
      grantDigest := call.request.grantDigest,
      catalogIdentity := call.grantSet.catalogIdentity,
      catalogDigest := call.grantSet.catalogDigest,
      descriptorDigest := call.locked.descriptorDigest,
      authorityRevisionDigest := call.authorityRevisionDigest,
      decisionReference := call.decisionRef,
      invocationId := call.request.invocationId,
      statusId := call.StatusId(),
      idempotencyKey := call.request.idempotencyKey,
      preconditionRefs := call.request.preconditions,
      evidenceRefs := call.evidenceRefs,
      proposalDigest := call.proposalDigest,
      portableDigest := call.digests.portableDigest,
      lockDigest := call.digests.lockDigest,
      bindingDigest := call.digests.bindingDigest,
      resolvedDigest := call.digests.resolvedDigest,
      traceId := call.request.traceId,
      spanId := call.request.spanId,
      intendedEffect := call.locked.effect,
      timestamp := now)
  }

  function OutcomeOf(call: EffectCall, authorization: Receipt, prepared: PreparedAudit, now: Timestamp): OutcomeAuditRecord {
    OutcomeAuditRecord(
      writeAheadRecordId := authorization.recordId,
      outcome := prepared.auditKind,
      tenantRef := call.principals.tenantRef,
      humanPrincipalRef := call.principals.humanRef,
      workloadPrincipalRef := call.principals.workloadRef,
      runRef := call.principals.runRef,
      actor := call.principals.actorRef,
      agent := call.principals.agentRef,
      task := call.principals.taskRef,
      session := call.principals.sessionRef,
      capability := call.request.capability,
      resource := call.request.selectedResource,
      admissionId := call.request.admissionId,
      grantDigest := call.request.grantDigest,
      catalogIdentity := call.grantSet.catalogIdentity,
      catalogDigest := call.grantSet.catalogDigest,
      descriptorDigest := call.locked.descriptorDigest,
      authorityRevisionDigest := call.authorityRevisionDigest,
      invocationId := call.request.invocationId,
      statusId := call.StatusId(),
      idempotencyKey := call.request.idempotencyKey,
      proposalDigest := call.proposalDigest,
      portableDigest := call.digests.portableDigest,
      lockDigest := call.digests.lockDigest,
      bindingDigest := call.digests.bindingDigest,
      resolvedDigest := call.digests.resolvedDigest,
      traceId := call.request.traceId,
      spanId := call.request.spanId,
      intendedEffect := call.locked.effect,
      safeResult := prepared.safeResult,
      safeError := prepared.safeError,
      timestamp := now)
  }

  // ---------------------------------------------------------------- serialisation

  function CapabilityJson(capability: CapabilityIdentity): Json {
    JObject(map[OtherKey("name") := JText(capability.name), OtherKey("version") := JText(capability.version)])
  }

  function CatalogJson(catalog: Catalog): Json {
    JObject(map[OtherKey("name") := JText(catalog.name), OtherKey("revision") := JText(catalog.revision)])
  }

  function EffectJson(effect: Effect): Json {
    match effect
    case ReadOnly => JText("read_only")
    case ReversibleWrite => JText("reversible_write")
    case IrreversibleWrite => JText("irreversible_write")
    case ExternalSideEffect => JText("external_side_effect")
  }

  function KindJson(kind: OutcomeAuditKind): Json {
    match kind
    case Completion => JText("completion")
    case Failure => JText("failure")
    case Suspension => JText("suspension")
    case OutcomeUnknown => JText("outcome_unknown")
  }

  function TextsJson(texts: seq<string>): Json {
    JArray(seq(|texts|, i requires 0 <= i < |texts| => JText(texts[i])))
  }

  function ReferencesJson(references: map<string, string>): Json {
    JObject(map name | name in references :: OtherKey(name) := JText(references[name]))
  }

  /** The value of a correlation field's member in an authorization record. */
  function AuthorizationValue(r: AuthorizationAuditRecord, field: Field): Json {
    match field
    case TenantRef => JText(r.tenantRef)
    case HumanPrincipalRef => JText(r.humanPrincipalRef)
    case WorkloadPrincipalRef => JText(r.workloadPrincipalRef)
    case RunRef => JText(r.runRef)
    case ActorField => JText(r.actor)
    case AgentField => JText(r.agent)
    case TaskField => JText(r.task)
    case SessionField => JText(r.session)
    case CapabilityField => CapabilityJson(r.capability)
    case ResourceField => JText(r.resource)
    case AdmissionId => JText(r.admissionId)
    case GrantDigest => JText(r.grantDigest)
    case CatalogIdentity => CatalogJson(r.catalogIdentity)
    case CatalogDigest => JText(r.catalogDigest)
    case DescriptorDigest => JText(r.descriptorDigest)
    case AuthorityRevisionDigest => JText(r.authorityRevisionDigest)
    case InvocationId => JText(r.invocationId)
    case StatusId => JText(r.statusId)
    case IdempotencyKey => JText(r.idempotencyKey)
    case ProposalDigest => JText(r.proposalDigest)
    case PortableDigest => JText(r.portableDigest)
    case LockDigest => JText(r.lockDigest)
    case BindingDigest => JText(r.bindingDigest)
    case ResolvedDigest => JText(r.resolvedDigest)
    case TraceId => JText(r.traceId)
    case SpanId => JText(r.spanId)
    case IntendedEffect => EffectJson(r.intendedEffect)
  }

  /** The value of a correlation field's member in an outcome record. */
  function OutcomeValue(r: OutcomeAuditRecord, field: Field): Json {
    match field
    case TenantRef => JText(r.tenantRef)
    case HumanPrincipalRef => JText(r.humanPrincipalRef)
    case WorkloadPrincipalRef => JText(r.workloadPrincipalRef)
    case RunRef => JText(r.runRef)
    case ActorField => JText(r.actor)
    case AgentField => JText(r.agent)
    case TaskField => JText(r.task)
    case SessionField => JText(r.session)
    case CapabilityField => CapabilityJson(r.capability)
    case ResourceField => JText(r.resource)
    case AdmissionId => JText(r.admissionId)
    case GrantDigest => JText(r.grantDigest)
    case CatalogIdentity => CatalogJson(r.catalogIdentity)
    case CatalogDigest => JText(r.catalogDigest)
    case DescriptorDigest => JText(r.descriptorDigest)
    case AuthorityRevisionDigest => JText(r.authorityRevisionDigest)
    case InvocationId => JText(r.invocationId)
    case StatusId => JText(r.statusId)
    case IdempotencyKey => JText(r.idempotencyKey)
    case ProposalDigest => JText(r.proposalDigest)
    case PortableDigest => JText(r.portableDigest)
    case LockDigest => JText(r.lockDigest)
    case BindingDigest => JText(r.bindingDigest)
    case ResolvedDigest => JText(r.resolvedDigest)
    case TraceId => JText(r.traceId)
    case SpanId => JText(r.spanId)
    case IntendedEffect => EffectJson(r.intendedEffect)
  }

  function AuthorizationFields(r: AuthorizationAuditRecord): map<Key, Json> {
    map field | field in CORRELATION :: Correlated(field) := AuthorizationValue(r, field)
  }

  function OutcomeFields(r: OutcomeAuditRecord): map<Key, Json> {
    map field | field in CORRELATION :: Correlated(field) := OutcomeValue(r, field)
  }

  function AuthorizationMembers(r: AuthorizationAuditRecord): map<Key, Json> {
    map[DecisionReference := JText(r.decisionReference), PreconditionRefs := TextsJson(r.preconditionRefs),
        EvidenceRefs := ReferencesJson(r.evidenceRefs), RecordTimestamp := JNumber(r.timestamp)]
  }

  /** An absent result or error is not written. */
  function OutcomeMembers(r: OutcomeAuditRecord): map<Key, Json> {
    map[WriteAheadRecordId := JText(r.writeAheadRecordId), OutcomeKind := KindJson(r.outcome), RecordTimestamp := JNumber(r.timestamp)]
    + (if r.safeResult.Some? then map[SafeResult := r.safeResult.value] else map[])
    + (if r.safeError.Some? then map[SafeError := r.safeError.value] else map[])
  }

  /** `AuditRecord`, serialised: a tag and the struct. */
  function Tagged(recordType: string, members: map<Key, Json>): Json {
    JObject(map[RecordType := JText(recordType), RecordBody := JObject(members)])
  }

  function AuthorizationJson(r: AuthorizationAuditRecord): Json {
    Tagged("authorization", AuthorizationFields(r) + AuthorizationMembers(r))
  }

  function OutcomeJson(r: OutcomeAuditRecord): Json {
    Tagged("outcome", OutcomeFields(r) + OutcomeMembers(r))
  }

  // ---------------------------------------------------------------- the records agree

  lemma TaggedReads(recordType: string, members: map<Key, Json>)
    ensures TextMember(Tagged(recordType, members), RecordType) == Some(recordType)
    ensures BodyOf(Tagged(recordType, members)) == Some(JObject(members))
  {}

  lemma AuthorizationCarries(r: AuthorizationAuditRecord, field: Field)
    ensures Member(JObject(AuthorizationFields(r) + AuthorizationMembers(r)), Correlated(field)) == Some(AuthorizationValue(r, field))
  {
    hide AuthorizationValue;
    EveryFieldIsCompared(field);
    assert Correlated(field) in AuthorizationFields(r) && Correlated(field) !in AuthorizationMembers(r);
  }

  lemma OutcomeCarries(r: OutcomeAuditRecord, field: Field)
    ensures Member(JObject(OutcomeFields(r) + OutcomeMembers(r)), Correlated(field)) == Some(OutcomeValue(r, field))
  {
    hide OutcomeValue;
    EveryFieldIsCompared(field);
    assert Correlated(field) in OutcomeFields(r) && Correlated(field) !in OutcomeMembers(r);
  }

  /** The two literals give every correlation field the same value, whatever happened in between. */
  lemma LiteralsAgree(call: EffectCall, authorizedAt: Timestamp, authorization: Receipt, prepared: PreparedAudit, now: Timestamp, field: Field)
    ensures AuthorizationValue(AuthorizationOf(call, authorizedAt), field) == OutcomeValue(OutcomeOf(call, authorization, prepared, now), field)
  {}

  lemma BodiesAgree(call: EffectCall, authorizedAt: Timestamp, authorization: Receipt, prepared: PreparedAudit, now: Timestamp)
    ensures
      var a, o := AuthorizationOf(call, authorizedAt), OutcomeOf(call, authorization, prepared, now);
      CompareAll(JObject(AuthorizationFields(a) + AuthorizationMembers(a)), JObject(OutcomeFields(o) + OutcomeMembers(o)), CORRELATION).Success?
  {
    hide AuthorizationValue, OutcomeValue, AuthorizationOf, OutcomeOf, AuthorizationFields, OutcomeFields, AuthorizationMembers, OutcomeMembers, Member;
    var a, o := AuthorizationOf(call, authorizedAt), OutcomeOf(call, authorization, prepared, now);
    var body, outcome := JObject(AuthorizationFields(a) + AuthorizationMembers(a)), JObject(OutcomeFields(o) + OutcomeMembers(o));
    forall field: Field
      ensures Agree(body, outcome, field)
    {
      AuthorizationCarries(a, field);
      OutcomeCarries(o, field);
      LiteralsAgree(call, authorizedAt, authorization, prepared, now, field);
    }
    CompareAllIsAgreement(body, outcome);
  }

  // ---------------------------------------------------------------- what the records say

  /** What a call puts in each correlation field. */
  function Said(call: EffectCall, field: Field): Json {
    match field
    case TenantRef => JText(call.principals.tenantRef)
    case HumanPrincipalRef => JText(call.principals.humanRef)
    case WorkloadPrincipalRef => JText(call.principals.workloadRef)
    case RunRef => JText(call.principals.runRef)
    case ActorField => JText(call.principals.actorRef)
    case AgentField => JText(call.principals.agentRef)
    case TaskField => JText(call.principals.taskRef)
    case SessionField => JText(call.principals.sessionRef)
    case CapabilityField => CapabilityJson(call.request.capability)
    case ResourceField => JText(call.request.selectedResource)
    case AdmissionId => JText(call.request.admissionId)
    case GrantDigest => JText(call.request.grantDigest)
    case CatalogIdentity => CatalogJson(call.grantSet.catalogIdentity)
    case CatalogDigest => JText(call.grantSet.catalogDigest)
    case DescriptorDigest => JText(call.locked.descriptorDigest)
    case AuthorityRevisionDigest => JText(call.authorityRevisionDigest)
    case InvocationId => JText(call.request.invocationId)
    case StatusId => JText("status://" + call.request.invocationId)
    case IdempotencyKey => JText(call.request.idempotencyKey)
    case ProposalDigest => JText(call.proposalDigest)
    case PortableDigest => JText(call.digests.portableDigest)
    case LockDigest => JText(call.digests.lockDigest)
    case BindingDigest => JText(call.digests.bindingDigest)
    case ResolvedDigest => JText(call.digests.resolvedDigest)
    case TraceId => JText(call.request.traceId)
    case SpanId => JText(call.request.spanId)
    case IntendedEffect => EffectJson(call.locked.effect)
  }

  /** The authorization record carries the call's own values and its decision. */
  lemma AuthorizationSays(call: EffectCall, authorizedAt: Timestamp)
    ensures
      var body := BodyOf(AuthorizationJson(AuthorizationOf(call, authorizedAt)));
      && body.Some?
      && (forall field: Field :: Member(body.value, Correlated(field)) == Some(Said(call, field)))
      && Member(body.value, DecisionReference) == Some(JText(call.decisionRef))
      && Member(body.value, PreconditionRefs) == Some(TextsJson(call.request.preconditions))
      && Member(body.value, EvidenceRefs) == Some(ReferencesJson(call.evidenceRefs))
      && Member(body.value, RecordTimestamp) == Some(JNumber(authorizedAt))
  {
    hide AuthorizationFields, Said, AuthorizationValue, Tagged, Member;
    var r := AuthorizationOf(call, authorizedAt);
    TaggedReads("authorization", AuthorizationFields(r) + AuthorizationMembers(r));
    AuthorizationMembersSay(r);
    forall field: Field
      ensures Member(JObject(AuthorizationFields(r) + AuthorizationMembers(r)), Correlated(field)) == Some(Said(call, field))
    {
      AuthorizationCarries(r, field);
      AuthorizationValueIsSaid(call, authorizedAt, field);
    }
  }

  lemma AuthorizationMembersSay(r: AuthorizationAuditRecord)
    ensures
      var body := JObject(AuthorizationFields(r) + AuthorizationMembers(r));
      && Member(body, DecisionReference) == Some(JText(r.decisionReference))
      && Member(body, PreconditionRefs) == Some(TextsJson(r.preconditionRefs))
      && Member(body, EvidenceRefs) == Some(ReferencesJson(r.evidenceRefs))
      && Member(body, RecordTimestamp) == Some(JNumber(r.timestamp))
  {
    hide AuthorizationFields, TextsJson, ReferencesJson;
  }

  lemma AuthorizationValueIsSaid(call: EffectCall, authorizedAt: Timestamp, field: Field)
    ensures AuthorizationValue(AuthorizationOf(call, authorizedAt), field) == Said(call, field)
  {}

  /** The outcome record carries the call's own values, the authorization it names and how the operation ended. */
  lemma OutcomeSays(call: EffectCall, authorization: Receipt, prepared: PreparedAudit, now: Timestamp)
    ensures
      var body := BodyOf(OutcomeJson(OutcomeOf(call, authorization, prepared, now)));
      && body.Some?
      && (forall field: Field :: Member(body.value, Correlated(field)) == Some(Said(call, field)))
      && Member(body.value, WriteAheadRecordId) == Some(JText(authorization.recordId))
      && Member(body.value, OutcomeKind) == Some(KindJson(prepared.auditKind))
      && Member(body.value, SafeResult) == prepared.safeResult && Member(body.value, SafeError) == prepared.safeError
      && Member(body.value, RecordTimestamp) == Some(JNumber(now))
  {
    hide OutcomeFields, OutcomeMembers, OutcomeValue, Said, Tagged, Member, KindJson;
    var r := OutcomeOf(call, authorization, prepared, now);
    TaggedReads("outcome", OutcomeFields(r) + OutcomeMembers(r));
    OutcomeMembersSay(r);
    forall field: Field
      ensures Member(JObject(OutcomeFields(r) + OutcomeMembers(r)), Correlated(field)) == Some(Said(call, field))
    {
      OutcomeCarries(r, field);
      OutcomeValueIsSaid(call, authorization, prepared, now, field);
    }
  }

  lemma OutcomeMembersSay(r: OutcomeAuditRecord)
    ensures
      var body := JObject(OutcomeFields(r) + OutcomeMembers(r));
      && Member(body, WriteAheadRecordId) == Some(JText(r.writeAheadRecordId))
      && Member(body, OutcomeKind) == Some(KindJson(r.outcome))
      && Member(body, SafeResult) == r.safeResult && Member(body, SafeError) == r.safeError
      && Member(body, RecordTimestamp) == Some(JNumber(r.timestamp))
  {
    hide OutcomeFields, OutcomeMembers, KindJson, Member;
    OutcomeOwnMember(r, WriteAheadRecordId);
    OutcomeOwnMember(r, OutcomeKind);
    OutcomeOwnMember(r, SafeResult);
    OutcomeOwnMember(r, SafeError);
    OutcomeOwnMember(r, RecordTimestamp);
  }

  /** What the record adds to its correlation fields; an absent result or error is absent from the text. */
  function OwnOf(r: OutcomeAuditRecord, key: Key): Option<Json> {
    match key
    case WriteAheadRecordId => Some(JText(r.writeAheadRecordId))
    case OutcomeKind => Some(KindJson(r.outcome))
    case SafeResult => r.safeResult
    case SafeError => r.safeError
    case RecordTimestamp => Some(JNumber(r.timestamp))
    case _ => None
  }

  lemma OutcomeOwnMember(r: OutcomeAuditRecord, key: Key)
    requires !key.Correlated?
    ensures Member(JObject(OutcomeFields(r) + OutcomeMembers(r)), key) == OwnOf(r, key)
  {
    OwnMemberIsOwn(r, key);
    hide OutcomeValue, KindJson, OutcomeMembers, OwnOf;
    assert key !in OutcomeFields(r);
  }

  lemma OwnMemberIsOwn(r: OutcomeAuditRecord, key: Key)
    ensures OwnOf(r, key) == if key in OutcomeMembers(r) then Some(OutcomeMembers(r)[key]) else None
  {
    hide KindJson;
    var result := if r.safeResult.Some? then map[SafeResult := r.safeResult.value] else map[];
    var error := if r.safeError.Some? then map[SafeError := r.safeError.value] else map[];
    assert key in result <==> key == SafeResult && r.safeResult.Some?;
    assert key in error <==> key == SafeError && r.safeError.Some?;
  }

  lemma OutcomeValueIsSaid(call: EffectCall, authorization: Receipt, prepared: PreparedAudit, now: Timestamp, field: Field)
    ensures OutcomeValue(OutcomeOf(call, authorization, prepared, now), field) == Said(call, field)
  {}

  // ---------------------------------------------------------------- outcomes link

  lemma LinkageOf(record: Json, partition: string, entries: seq<VerifiedEntry>, i: nat, body: Json, authorization: Json)
    requires TextMember(record, RecordType) == Some("outcome") && BodyOf(record) == Some(body)
    requires TextMember(body, Correlated(TenantRef)) == Some(partition)
    requires i < |entries| && TextMember(body, WriteAheadRecordId) == Some(entries[i].receipt.recordId)
    requires Find(entries, entries[i].receipt.recordId) == Some(i)
    requires AuthorizationBody(entries[i].record) == Some(authorization)
    requires CompareAll(authorization, body, CORRELATION).Success?
    ensures Linkage(record, partition, entries).Success?
  {
    hide CompareAll, Find, TextMember, BodyOf, AuthorizationBody;
  }

  lemma OutcomeLinks(call: EffectCall, entries: seq<VerifiedEntry>, i: nat, authorizedAt: Timestamp, prepared: PreparedAudit, now: Timestamp)
    requires i < |entries| && entries[i].record == AuthorizationJson(AuthorizationOf(call, authorizedAt))
    requires Find(entries, entries[i].receipt.recordId) == Some(i)
    ensures Linkage(OutcomeJson(OutcomeOf(call, entries[i].receipt, prepared, now)), call.principals.tenantRef, entries).Success?
  {
    hide CompareAll, Find, Linkage, Tagged, Member, AuthorizationFields, OutcomeFields, AuthorizationMembers, OutcomeMembers;
    var a, o := AuthorizationOf(call, authorizedAt), OutcomeOf(call, entries[i].receipt, prepared, now);
    var own, other := AuthorizationFields(a) + AuthorizationMembers(a), OutcomeFields(o) + OutcomeMembers(o);
    TaggedReads("authorization", own);
    TaggedReads("outcome", other);
    OutcomeCarries(o, TenantRef);
    OutcomeMembersSay(o);
    BodiesAgree(call, authorizedAt, entries[i].receipt, prepared, now);
    LinkageOf(OutcomeJson(o), call.principals.tenantRef, entries, i, JObject(other), JObject(own));
  }

  /**
   Whatever else has been appended since, the outcome record of an effect is accepted by every verified
   ledger that holds the effect's authorization record: only the file system can refuse it.
   */
  lemma ServiceOutcomesAlwaysLink(codec: Codec, file: Bytes, call: EffectCall, i: nat,
                                  authorizedAt: Timestamp, prepared: PreparedAudit, now: Timestamp)
    requires ValidPartition(codec, call.principals.tenantRef) && Verified(codec, call.principals.tenantRef, file).Success?
    requires
      var entries := Verified(codec, call.principals.tenantRef, file).value;
      i < |entries| && entries[i].record == AuthorizationJson(AuthorizationOf(call, authorizedAt))
    ensures
      var entries := Verified(codec, call.principals.tenantRef, file).value;
      Append(codec, call.principals.tenantRef, file, OutcomeJson(OutcomeOf(call, entries[i].receipt, prepared, now))).1.Success?
  {
    hide Verified, ChainOk, ValidPartition, RecordHash, RecordId, CompareAll, Find, AuthorizationJson, AuthorizationOf, OutcomeJson, OutcomeOf;
    var tenant := call.principals.tenantRef;
    SequencesCount(codec, tenant, file);
    var entries := Verified(codec, tenant, file).value;
    FindsTheEntry(codec, tenant, entries, i);
    OutcomeLinks(call, entries, i, authorizedAt, prepared, now);
  }
}
