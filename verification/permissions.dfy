/**
 What a grant permits, apart from its resources. The component orders that admission, the point of use and
 delegation compare grants with are exactly inclusion of permitted uses.
 */
module Permissions {
  import opened Outcomes
  import opened Contract

  /** Evidence presented with a use. */
  datatype Given = Given(confirmation: Option<EvidenceRequirement>, approval: Option<EvidenceRequirement>, consent: Option<EvidenceRequirement>)

  /** One way of using a capability: how, to what effect, when, with what evidence, how fresh, and under which preconditions. */
  datatype Use = Use(
    capability: CapabilityIdentity, mode: ExecutionMode, effect: Effect, at: Timestamp, given: Given,
    admissionAge: nat, inputAge: nat, policyChecked: bool, satisfied: set<PreconditionDescriptor>)

  predicate Satisfies(given: Option<EvidenceRequirement>, demand: EvidenceDemand) {
    match demand
    case NotRequired => true
    case Required(evidence) => given == Some(evidence)
  }

  predicate AgeAllowed(age: nat, bound: Option<nat>) {
    match bound
    case None => true
    case Some(most) => age <= most
  }

  predicate MilderThan(effect: Effect, bound: Effect) {
    match effect
    case ReadOnly => true
    case ReversibleWrite => !bound.ReadOnly?
    case IrreversibleWrite => bound.IrreversibleWrite? || bound.ExternalSideEffect?
    case ExternalSideEffect => bound.ExternalSideEffect?
  }

  predicate Permits(grant: Grant, use: Use) {
    && use.capability == grant.capability
    && use.mode in grant.modes
    && MilderThan(use.effect, grant.maximumEffect)
    && use.at < grant.expiresAt
    && Satisfies(use.given.confirmation, grant.evidence.confirmation)
    && Satisfies(use.given.approval, grant.evidence.approval)
    && Satisfies(use.given.consent, grant.evidence.consent)
    && AgeAllowed(use.admissionAge, grant.freshness.maxAdmissionAge)
    && AgeAllowed(use.inputAge, grant.freshness.maxInputAge)
    && (grant.freshness.policyRevisionRequired ==> use.policyChecked)
    && (forall p | p in grant.preconditions && p.required :: p in use.satisfied)
  }

  ghost predicate PermitsNoMore(grant: Grant, other: Grant) {
    forall use: Use | Permits(grant, use) :: Permits(other, use)
  }

  /** Every component at most as permissive. */
  predicate ComponentsNarrow(grant: Grant, other: Grant) {
    && grant.capability == other.capability
    && grant.modes <= other.modes
    && EffectAtMost(grant.maximumEffect, other.maximumEffect)
    && grant.expiresAt <= other.expiresAt
    && EvidenceAtLeast(grant.evidence, other.evidence)
    && FreshnessAtLeast(grant.freshness, other.freshness)
    && PreconditionsKept(grant.preconditions, other.preconditions)
  }

  /** Everything a requirement asks for, without an expiry. */
  function Asked(requirement: ResolvedRequirement): Grant {
    var descriptor := requirement.descriptor;
    Grant(descriptor.identity, requirement.resources, descriptor.modes, descriptor.effect, MAX_U64,
          descriptor.evidence, descriptor.freshness, descriptor.preconditions)
  }

  function GivenFor(demand: EvidenceDemand): Option<EvidenceRequirement> {
    match demand
    case NotRequired => None
    case Required(evidence) => Some(evidence)
  }

  /** The oldest age a bound allows, or one that another bound does not. */
  function OldestAge(bound: Option<nat>, other: Option<nat>): nat {
    if bound.Some? then bound.value else if other.Some? then other.value + 1 else 0
  }

  /** A use that a grant barely permits, in the ways in which another grant might not. */
  function BarelyPermitted(grant: Grant, other: Grant, mode: ExecutionMode): Use
    requires grant.expiresAt > 0
  {
    Use(capability := grant.capability, mode := mode, effect := grant.maximumEffect, at := grant.expiresAt - 1,
        given := Given(GivenFor(grant.evidence.confirmation), GivenFor(grant.evidence.approval), GivenFor(grant.evidence.consent)),
        admissionAge := OldestAge(grant.freshness.maxAdmissionAge, other.freshness.maxAdmissionAge),
        inputAge := OldestAge(grant.freshness.maxInputAge, other.freshness.maxInputAge),
        policyChecked := grant.freshness.policyRevisionRequired,
        satisfied := set p | p in grant.preconditions && p.required)
  }

  lemma MilderIsRank(effect: Effect, bound: Effect)
    ensures MilderThan(effect, bound) <==> EffectAtMost(effect, bound)
  {}

  lemma NarrowerPermitsNoMore(grant: Grant, other: Grant)
    requires ComponentsNarrow(grant, other)
    ensures PermitsNoMore(grant, other)
  {
    forall use: Use | Permits(grant, use)
      ensures Permits(other, use)
    {
      MilderIsRank(use.effect, grant.maximumEffect);
      MilderIsRank(use.effect, other.maximumEffect);
    }
  }

  lemma BarelyPermittedTells(grant: Grant, other: Grant, mode: ExecutionMode)
    requires grant.expiresAt > 0 && mode in grant.modes
    ensures Permits(grant, BarelyPermitted(grant, other, mode))
    ensures Permits(other, BarelyPermitted(grant, other, mode)) ==>
              && mode in other.modes
              && ComponentsNarrow(grant.(modes := {}), other)
  {
    MilderIsRank(grant.maximumEffect, grant.maximumEffect);
    MilderIsRank(grant.maximumEffect, other.maximumEffect);
  }

  /** For a grant that permits anything, the component orders together are inclusion of permitted uses. */
  lemma ComponentsAreInclusion(grant: Grant, other: Grant)
    requires grant.modes != {} && grant.expiresAt > 0
    ensures ComponentsNarrow(grant, other) <==> PermitsNoMore(grant, other)
  {
    if PermitsNoMore(grant, other) {
      var some :| some in grant.modes;
      BarelyPermittedTells(grant, other, some);
      assert Permits(other, BarelyPermitted(grant, other, some));
      forall mode | mode in grant.modes
        ensures mode in other.modes
      {
        BarelyPermittedTells(grant, other, mode);
        assert Permits(other, BarelyPermitted(grant, other, mode));
      }
    }
    if ComponentsNarrow(grant, other) {
      NarrowerPermitsNoMore(grant, other);
    }
  }
}
