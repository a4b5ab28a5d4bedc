/**
 The portable contract values of crates/kiteframe-contract: descriptors, requirements and grants.

 A vector that the source sorts and deduplicates on construction is a set here, and the three
 evidence requirement enums, which differ only in name, are one datatype.
 */
module Contract {
  import opened Outcomes
  import opened Text

  const MAX_U64: nat := 0xFFFF_FFFF_FFFF_FFFF

  /** Seconds since the epoch, as an unsigned 64-bit integer. */
  type Timestamp = t: nat | t <= MAX_U64

  datatype CapabilityIdentity = CapabilityIdentity(name: string, version: string)

  datatype ExecutionMode = Immediate | Deferred | Suspendable

  /** In increasing order, which the source derives from the declaration order. */
  datatype Effect = ReadOnly | ReversibleWrite | IrreversibleWrite | ExternalSideEffect

  function EffectRank(effect: Effect): nat {
    match effect
    case ReadOnly => 0
    case ReversibleWrite => 1
    case IrreversibleWrite => 2
    case ExternalSideEffect => 3
  }

  datatype EvidenceRequirement = EvidenceRequirement(kind: string, issuer: Option<string>)

  datatype EvidenceDemand = NotRequired | Required(evidence: EvidenceRequirement)

  datatype RequiredEvidence = RequiredEvidence(confirmation: EvidenceDemand, approval: EvidenceDemand, consent: EvidenceDemand)

  datatype Freshness = Freshness(maxAdmissionAge: Option<nat>, policyRevisionRequired: bool, maxInputAge: Option<nat>)

  datatype PreconditionKind = EntityVersion | Etag

  datatype PreconditionDescriptor = PreconditionDescriptor(name: string, kind: PreconditionKind, required: bool)

  datatype Descriptor = Descriptor(
    identity: CapabilityIdentity,
    modes: set<ExecutionMode>,
    effect: Effect,
    evidence: RequiredEvidence,
    freshness: Freshness,
    preconditions: set<PreconditionDescriptor>)

  datatype ResolvedRequirement = ResolvedRequirement(descriptor: Descriptor, required: bool, resources: set<string>)
  {
    function Identity(): CapabilityIdentity {
      descriptor.identity
    }

    /** What `ResolvedCapabilityRequirement::try_new` and the descriptor's non-empty mode set guarantee. */
    predicate Valid() {
      resources != {} && descriptor.modes != {}
    }
  }

  datatype Grant = Grant(
    capability: CapabilityIdentity,
    resources: set<string>,
    modes: set<ExecutionMode>,
    maximumEffect: Effect,
    expiresAt: Timestamp,
    evidence: RequiredEvidence,
    freshness: Freshness,
    preconditions: set<PreconditionDescriptor>)
  {
    /** What the constructors of a grant and of its selectors and mode set guarantee. */
    predicate Valid() {
      && resources != {}
      && modes != {}
      && forall selector | selector in resources :: !Blank(selector)
    }
  }

  // ---------------------------------------------------------------- the component orders

  predicate EffectAtMost(effect: Effect, bound: Effect) {
    EffectRank(effect) <= EffectRank(bound)
  }

  /** A bound at least as tight: a missing baseline allows anything. */
  predicate BoundAtLeast(effective: Option<nat>, baseline: Option<nat>) {
    baseline.None? || (effective.Some? && effective.value <= baseline.value)
  }

  predicate FreshnessAtLeast(effective: Freshness, baseline: Freshness) {
    && BoundAtLeast(effective.maxAdmissionAge, baseline.maxAdmissionAge)
    && BoundAtLeast(effective.maxInputAge, baseline.maxInputAge)
    && (baseline.policyRevisionRequired ==> effective.policyRevisionRequired)
  }

  predicate DemandAtLeast(effective: EvidenceDemand, baseline: EvidenceDemand) {
    baseline.NotRequired? || effective == baseline
  }

  predicate EvidenceAtLeast(effective: RequiredEvidence, baseline: RequiredEvidence) {
    && DemandAtLeast(effective.confirmation, baseline.confirmation)
    && DemandAtLeast(effective.approval, baseline.approval)
    && DemandAtLeast(effective.consent, baseline.consent)
  }

  /** The required preconditions are kept as they are. */
  predicate PreconditionsKept(effective: set<PreconditionDescriptor>, baseline: set<PreconditionDescriptor>) {
    forall p | p in baseline && p.required :: p in effective
  }

  // ---------------------------------------------------------------- uniqueness by identity

  predicate UniqueGrants(grants: seq<Grant>) {
    forall i, j | 0 <= i < j < |grants| :: grants[i].capability != grants[j].capability
  }

  predicate UniqueRequirements(requirements: seq<ResolvedRequirement>) {
    forall i, j | 0 <= i < j < |requirements| :: requirements[i].Identity() != requirements[j].Identity()
  }
}
