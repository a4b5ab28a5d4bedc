/**
 The admission service as an object, the loading of what it persisted, and the point-of-use checks of
 crates/kiteframe-provider/src/invocation.rs, up to the moment an operation is dispatched.

 Principal correlation, evidence, argument and selector schemas, and preconditions of the operation are one
 oracle each; what is modelled is the authority a dispatched resource still lies within.
 */
module AdmissionService {
  import opened Outcomes
  import opened Contract
  import opened ResourceSelectors
  import opened Authority
  import opened Admission

  // ---------------------------------------------------------------- what one admitted grant lies within

  /** The domain has a plane that speaks about the capability, denies it nowhere, and allows at least the grant everywhere. */
  ghost predicate WithinPlane(facts: Facts, grant: Grant, domain: Domain) {
    var plane := PlaneOf(facts.sources, domain);
    && plane.Some?
    && TermsFor(plane.value, grant.capability) != []
    && forall term | term in TermsFor(plane.value, grant.capability) :: term.Allow? && IsSubsetOf(grant, term.grant)
  }

  ghost predicate WithinEveryPlane(facts: Facts, grant: Grant) {
    forall domain: Domain :: WithinPlane(facts, grant, domain)
  }

  lemma {:induction false} CollectsEveryPlane(sources: seq<Planes>, domains: seq<Domain>, capability: CapabilityIdentity, k: nat)
    requires CollectTerms(sources, domains, capability).Some? && k < |domains|
    ensures PlaneOf(sources, domains[k]).Some? && TermsFor(PlaneOf(sources, domains[k]).value, capability) != []
    ensures forall term | term in TermsFor(PlaneOf(sources, domains[k]).value, capability) :: term in CollectTerms(sources, domains, capability).value
    decreases |domains|
  {
    if k < |domains| - 1 {
      CollectsEveryPlane(sources, domains[..|domains| - 1], capability, k);
    }
  }

  lemma EveryDomainIsListed(domain: Domain)
    ensures domain in ALL_DOMAINS
  {
    var k :=
      match domain
      case PackageDomain => 0 case DeploymentDomain => 1 case HumanDomain => 2
      case WorkloadDomain => 3 case TaskDomain => 4 case SessionDomain => 5;
    assert ALL_DOMAINS[k] == domain;
  }

  /** A grant `admit_capability` returns lies within every plane, its requirement and the request. */
  lemma AdmittedGrantIsWithin(facts: Facts, requested: Requested, requirement: ResolvedRequirement)
    requires requirement.Valid()
    requires AdmitCapability(facts, requested, requirement).Success? && AdmitCapability(facts, requested, requirement).value.Some?
    ensures
      var grant := AdmitCapability(facts, requested, requirement).value.value;
      && grant.Valid()
      && grant.capability == requested.capability == requirement.Identity()
      && WithinEveryPlane(facts, grant)
      && NarrowsRequirement(grant, requirement)
      && IsSubsetOf(grant, Boundary(requirement, requested, facts.expiresAt))
  {
    hide Intersection, IsSubsetOf, NarrowsRequirement;
    var grant := AdmitCapability(facts, requested, requirement).value.value;
    var collected := CollectTerms(facts.sources, ALL_DOMAINS, requested.capability).value;
    var boundary := Allow(Boundary(requirement, requested, facts.expiresAt));
    var terms := collected + [boundary];
    ResultIsBelowEveryTerm(requirement, terms);
    ResultIsValid(requirement, terms);
    assert terms[|collected|] == boundary;
    assert grant.capability == requirement.Identity() by { BelowHasItsCapability(grant, requirement); }
    forall domain: Domain
      ensures WithinPlane(facts, grant, domain)
    {
      EveryDomainIsListed(domain);
      var k :| 0 <= k < |ALL_DOMAINS| && ALL_DOMAINS[k] == domain;
      CollectsEveryPlane(facts.sources, ALL_DOMAINS, requested.capability, k);
      forall term | term in TermsFor(PlaneOf(facts.sources, domain).value, grant.capability)
        ensures term.Allow? && IsSubsetOf(grant, term.grant)
      {
        var i :| 0 <= i < |collected| && collected[i] == term;
        assert terms[i] == term;
      }
    }
  }

  lemma BelowHasItsCapability(grant: Grant, requirement: ResolvedRequirement)
    requires NarrowsRequirement(grant, requirement)
    ensures grant.capability == requirement.Identity()
  {}

  /** What the grant checks of the contract crate ask is part of narrowing the requirement and the request. */
  lemma AdmittedGrantNarrows(grant: Grant, requested: Requested, requirement: ResolvedRequirement, expiresAt: Timestamp)
    requires NarrowsRequirement(grant, requirement) && IsSubsetOf(grant, Boundary(requirement, requested, expiresAt))
    ensures GrantNarrows(grant, requirement.descriptor, expiresAt)
    ensures AllWithin(grant.resources, requested.ResourceSet())
  {}

  // ---------------------------------------------------------------- what the loop has collected

  /** A collected grant, with the requirement and the request it came from. */
  ghost predicate GrantOk(facts: Facts, requests: seq<Requested>, requirement: ResolvedRequirement, grant: Grant) {
    && grant.capability == requirement.Identity()
    && grant.Valid()
    && WithinEveryPlane(facts, grant)
    && GrantNarrows(grant, requirement.descriptor, facts.expiresAt)
    && var requested := FindRequest(requests, grant.capability);
    && requested.Some? && AllWithin(grant.resources, requested.value.ResourceSet())
  }

  ghost predicate FromRequirement(facts: Facts, requests: seq<Requested>, requirements: seq<ResolvedRequirement>, grant: Grant) {
    exists i | 0 <= i < |requirements| :: GrantOk(facts, requests, requirements[i], grant)
  }

  /** Each requirement met so far has one grant or one denial, each required one a grant, and each grant is in order. */
  ghost predicate CollectedOk(facts: Facts, requests: seq<Requested>, requirements: seq<ResolvedRequirement>, collected: Collected) {
    && (forall capability: CapabilityIdentity ::
          GrantsFor(collected.grants, capability) + DenialsFor(collected.denials, capability)
          == if HasRequirement(requirements, capability) then 1 else 0)
    && (forall i | 0 <= i < |requirements| && requirements[i].required :: GrantsFor(collected.grants, requirements[i].Identity()) == 1)
    && (forall i | 0 <= i < |collected.grants| :: FromRequirement(facts, requests, requirements, collected.grants[i]))
  }

  lemma CollectOneOk(facts: Facts, backend: AuthorizationBackend, requests: seq<Requested>, requirement: ResolvedRequirement, sofar: Collected)
    requires requirement.Valid()
    requires
      var requested := FindRequest(requests, requirement.Identity());
      requested.Some? && CollectOne(facts, backend, requested.value, requirement, sofar).Success?
    ensures
      var requested := FindRequest(requests, requirement.Identity()).value;
      var after := CollectOne(facts, backend, requested, requirement, sofar).value;
      || (&& !requirement.required && after.grants == sofar.grants && after.denials == sofar.denials + [requirement.Identity()])
      || (&& after.denials == sofar.denials && |after.grants| == |sofar.grants| + 1 && after.grants[..|sofar.grants|] == sofar.grants
          && GrantOk(facts, requests, requirement, after.grants[|sofar.grants|]))
  {
    hide GrantNarrows, NarrowsRequirement, IsSubsetOf, AllWithin, WithinEveryPlane;
    var requested := FindRequest(requests, requirement.Identity()).value;
    var after := CollectOne(facts, backend, requested, requirement, sofar).value;
    var admitted := AdmitCapability(facts, requested, requirement);
    if admitted.Success? && admitted.value.Some? {
      AdmittedGrantIsWithin(facts, requested, requirement);
      AdmittedGrantNarrows(admitted.value.value, requested, requirement, facts.expiresAt);
    }
    if after.grants != sofar.grants {
      assert after.grants[..|sofar.grants|] == sofar.grants;
    }
  }

  lemma OneMoreGrant(facts: Facts, requests: seq<Requested>, requirements: seq<ResolvedRequirement>, before: Collected, after: Collected)
    requires requirements != [] && UniqueRequirements(requirements)
    requires CollectedOk(facts, requests, requirements[..|requirements| - 1], before)
    requires
      var requirement := requirements[|requirements| - 1];
      && after.denials == before.denials && |after.grants| == |before.grants| + 1 && after.grants[..|before.grants|] == before.grants
      && GrantOk(facts, requests, requirement, after.grants[|before.grants|])
    ensures CollectedOk(facts, requests, requirements, after)
  {
    hide GrantOk;
    var last := |requirements| - 1;
    var earlier, requirement := requirements[..last], requirements[last];
    assert after.grants[|before.grants|].capability == requirement.Identity() by {
      OkGrantHasCapability(facts, requests, requirement, after.grants[|before.grants|]);
    }
    forall capability: CapabilityIdentity
      ensures GrantsFor(after.grants, capability) + DenialsFor(after.denials, capability) == if HasRequirement(requirements, capability) then 1 else 0
    {
      RequirementAdded(requirements, capability);
    }
    forall i | 0 <= i < |requirements| && requirements[i].required
      ensures GrantsFor(after.grants, requirements[i].Identity()) == 1
    {
      if i < last {
        assert earlier[i] == requirements[i];
      } else {
        assert !HasRequirement(earlier, requirement.Identity());
      }
    }
    forall i | 0 <= i < |after.grants|
      ensures FromRequirement(facts, requests, requirements, after.grants[i])
    {
      if i < |before.grants| {
        assert after.grants[i] == before.grants[i];
        MoreRequirements(facts, requests, requirements, after.grants[i]);
      } else {
        assert GrantOk(facts, requests, requirements[last], after.grants[i]);
      }
    }
  }

  lemma OkGrantHasCapability(facts: Facts, requests: seq<Requested>, requirement: ResolvedRequirement, grant: Grant)
    requires GrantOk(facts, requests, requirement, grant)
    ensures grant.capability == requirement.Identity()
  {}

  lemma MoreRequirements(facts: Facts, requests: seq<Requested>, requirements: seq<ResolvedRequirement>, grant: Grant)
    requires requirements != [] && FromRequirement(facts, requests, requirements[..|requirements| - 1], grant)
    ensures FromRequirement(facts, requests, requirements, grant)
  {
    hide GrantOk;
    var i :| 0 <= i < |requirements| - 1 && GrantOk(facts, requests, requirements[..|requirements| - 1][i], grant);
    assert requirements[i] == requirements[..|requirements| - 1][i];
  }

  lemma RequirementAdded(requirements: seq<ResolvedRequirement>, capability: CapabilityIdentity)
    requires requirements != []
    ensures HasRequirement(requirements, capability) <==>
            HasRequirement(requirements[..|requirements| - 1], capability) || requirements[|requirements| - 1].Identity() == capability
    ensures UniqueRequirements(requirements) && requirements[|requirements| - 1].Identity() == capability ==>
            !HasRequirement(requirements[..|requirements| - 1], capability)
  {
    var last := |requirements| - 1;
    if HasRequirement(requirements, capability) {
      var i :| 0 <= i < |requirements| && requirements[i].Identity() == capability;
      assert i < last ==> requirements[..last][i] == requirements[i];
    }
    if HasRequirement(requirements[..last], capability) {
      var i :| 0 <= i < last && requirements[..last][i].Identity() == capability;
      assert requirements[i].Identity() == capability;
    }
  }

  lemma OneMoreDenial(facts: Facts, requests: seq<Requested>, requirements: seq<ResolvedRequirement>, before: Collected, after: Collected)
    requires requirements != [] && UniqueRequirements(requirements) && !requirements[|requirements| - 1].required
    requires CollectedOk(facts, requests, requirements[..|requirements| - 1], before)
    requires after.grants == before.grants && after.denials == before.denials + [requirements[|requirements| - 1].Identity()]
    ensures CollectedOk(facts, requests, requirements, after)
  {
    hide GrantOk;
    var last := |requirements| - 1;
    assert after.denials[..|before.denials|] == before.denials;
    forall capability: CapabilityIdentity
      ensures GrantsFor(after.grants, capability) + DenialsFor(after.denials, capability) == if HasRequirement(requirements, capability) then 1 else 0
    {
      RequirementAdded(requirements, capability);
    }
    forall i | 0 <= i < |requirements| && requirements[i].required
      ensures GrantsFor(after.grants, requirements[i].Identity()) == 1
    {
      assert requirements[..last][i] == requirements[i];
    }
    forall i | 0 <= i < |after.grants|
      ensures FromRequirement(facts, requests, requirements, after.grants[i])
    {
      MoreRequirements(facts, requests, requirements, after.grants[i]);
    }
  }

  lemma {:induction false} CollectIsOk(facts: Facts, backend: AuthorizationBackend, requests: seq<Requested>, requirements: seq<ResolvedRequirement>)
    requires UniqueRequirements(requirements) && forall i | 0 <= i < |requirements| :: requirements[i].Valid()
    requires Collect(facts, backend, requests, requirements).Success?
    ensures CollectedOk(facts, requests, requirements, Collect(facts, backend, requests, requirements).value)
    decreases |requirements|
  {
    if requirements != [] {
      hide GrantOk, CollectOne, CollectedOk;
      var last := |requirements| - 1;
      CollectIsOk(facts, backend, requests, requirements[..last]);
      var before := Collect(facts, backend, requests, requirements[..last]).value;
      var after := Collect(facts, backend, requests, requirements).value;
      CollectOneOk(facts, backend, requests, requirements[last], before);
      if after.denials == before.denials {
        OneMoreGrant(facts, requests, requirements, before, after);
      } else {
        OneMoreDenial(facts, requests, requirements, before, after);
      }
    }
  }

  // ---------------------------------------------------------------- the assembled grant set

  lemma {:induction false} CountsAreUnique(grants: seq<Grant>)
    requires forall capability: CapabilityIdentity :: GrantsFor(grants, capability) <= 1
    ensures UniqueGrants(grants)
  {
    if grants != [] {
      var last := |grants| - 1;
      forall capability: CapabilityIdentity
        ensures GrantsFor(grants[..last], capability) <= 1
      {
        assert GrantsFor(grants, capability) <= 1;
      }
      CountsAreUnique(grants[..last]);
      forall i | 0 <= i < last
        ensures grants[i].capability != grants[last].capability
      {
        assert GrantsFor(grants, grants[last].capability) <= 1;
        CountedGrant(grants[..last], i);
      }
    }
  }

  lemma {:induction false} CountedGrant(grants: seq<Grant>, i: nat)
    requires i < |grants|
    ensures GrantsFor(grants, grants[i].capability) >= 1
  {
    if i < |grants| - 1 {
      CountedGrant(grants[..|grants| - 1], i);
    }
  }

  lemma {:induction false} DenialCountsAreUnique(denials: seq<CapabilityIdentity>)
    requires forall capability: CapabilityIdentity :: DenialsFor(denials, capability) <= 1
    ensures UniqueDenials(denials)
  {
    if denials != [] {
      var last := |denials| - 1;
      forall capability: CapabilityIdentity
        ensures DenialsFor(denials[..last], capability) <= 1
      {
        assert DenialsFor(denials, capability) <= 1;
      }
      DenialCountsAreUnique(denials[..last]);
      forall i | 0 <= i < last
        ensures denials[i] != denials[last]
      {
        assert DenialsFor(denials, denials[last]) <= 1;
        CountedDenial(denials[..last], i);
      }
    }
  }

  lemma {:induction false} CountedDenial(denials: seq<CapabilityIdentity>, i: nat)
    requires i < |denials|
    ensures DenialsFor(denials, denials[i]) >= 1
  {
    if i < |denials| - 1 {
      CountedDenial(denials[..|denials| - 1], i);
    }
  }

  lemma RequestsSplit(required: seq<Requested>, optional: seq<Requested>, capability: CapabilityIdentity)
    ensures RequestedAs(required + optional, capability) <==> RequestedAs(required, capability) || RequestedAs(optional, capability)
  {
    var all := required + optional;
    if RequestedAs(all, capability) {
      var i :| 0 <= i < |all| && all[i].capability == capability;
      assert all[i] == if i < |required| then required[i] else optional[i - |required|];
    }
    if RequestedAs(required, capability) {
      var i :| 0 <= i < |required| && required[i].capability == capability;
      assert all[i] == required[i];
    }
    if RequestedAs(optional, capability) {
      var j :| 0 <= j < |optional| && optional[j].capability == capability;
      assert all[|required| + j] == optional[j];
    }
  }

  lemma RequestsAreExclusive(required: seq<Requested>, optional: seq<Requested>, capability: CapabilityIdentity)
    requires UniqueRequests(required + optional)
    ensures !(RequestedAs(required, capability) && RequestedAs(optional, capability))
  {
    hide UniqueRequests;
    if RequestedAs(required, capability) && RequestedAs(optional, capability) {
      var i :| 0 <= i < |required| && required[i].capability == capability;
      var j :| 0 <= j < |optional| && optional[j].capability == capability;
      TwoRequestsDiffer(required + optional, i, |required| + j);
    }
  }

  lemma TwoRequestsDiffer(requests: seq<Requested>, i: nat, j: nat)
    requires UniqueRequests(requests) && i < j < |requests|
    ensures requests[i].capability != requests[j].capability
  {}

  lemma RequestedHasRequirement(request: AdmissionRequest, capability: CapabilityIdentity)
    requires ValidRequest(request) && RequestedAs(request.All(), capability)
    ensures HasRequirement(request.requirements, capability)
  {
    var i :| 0 <= i < |request.All()| && request.All()[i].capability == capability;
    var found := FindRequirement(request.requirements, request.All()[i].capability);
    assert found.Some?;
    var k :| 0 <= k < |request.requirements| && request.requirements[k] == found.value;
    assert request.requirements[k].Identity() == capability;
  }

  /** A requirement maps to exactly one request, of its own requiredness. */
  lemma MappingMatches(request: AdmissionRequest, capability: CapabilityIdentity)
    requires ValidRequest(request) && MappingHolds(request) && UniqueRequirements(request.requirements)
    ensures RequestedAs(request.All(), capability) <==> HasRequirement(request.requirements, capability)
    ensures RequestedAs(request.All(), capability) <==> RequestedAs(request.required, capability) || RequestedAs(request.optional, capability)
    ensures !(RequestedAs(request.required, capability) && RequestedAs(request.optional, capability))
  {
    RequestsSplit(request.required, request.optional, capability);
    RequestsAreExclusive(request.required, request.optional, capability);
    if RequestedAs(request.All(), capability) {
      RequestedHasRequirement(request, capability);
    }
    hide ValidRequest, UniqueRequirements, RequestedAs;
    if HasRequirement(request.requirements, capability) {
      var i := RequirementOf(request, capability);
    }
  }

  lemma RequirementOf(request: AdmissionRequest, capability: CapabilityIdentity) returns (i: nat)
    requires HasRequirement(request.requirements, capability)
    ensures i < |request.requirements| && request.requirements[i].Identity() == capability
  {
    i :| 0 <= i < |request.requirements| && request.requirements[i].Identity() == capability;
  }

  /** Each requested capability has exactly one grant or denial, each required one a grant, and nothing else has either. */
  ghost predicate Partitions(request: AdmissionRequest, grants: seq<Grant>, denials: seq<CapabilityIdentity>) {
    && UniqueGrants(grants) && UniqueDenials(denials)
    && (forall capability: CapabilityIdentity ::
          GrantsFor(grants, capability) + DenialsFor(denials, capability) == if RequestedAs(request.All(), capability) then 1 else 0)
    && (forall i | 0 <= i < |request.required| :: GrantsFor(grants, request.required[i].capability) == 1)
  }

  /** What the loop of `admit` collects partitions the request. */
  lemma CollectedPartitions(facts: Facts, request: AdmissionRequest, backend: AuthorizationBackend)
    requires ValidRequest(request) && RequestBound(facts, request)
    requires Collect(facts, backend, request.All(), request.requirements).Success?
    ensures
      var collected := Collect(facts, backend, request.All(), request.requirements).value;
      && CollectedOk(facts, request.All(), request.requirements, collected)
      && Partitions(request, collected.grants, collected.denials)
  {
    hide ValidRequest, Collect, GrantOk;
    var collected := Collect(facts, backend, request.All(), request.requirements).value;
    RequirementsAreValid(request);
    CollectIsOk(facts, backend, request.All(), request.requirements);
    forall capability: CapabilityIdentity
      ensures GrantsFor(collected.grants, capability) + DenialsFor(collected.denials, capability) == if RequestedAs(request.All(), capability) then 1 else 0
    {
      MappingMatches(request, capability);
    }
    CountsAreUnique(collected.grants);
    DenialCountsAreUnique(collected.denials);
    forall i | 0 <= i < |request.required|
      ensures GrantsFor(collected.grants, request.required[i].capability) == 1
    {
      var capability := request.required[i].capability;
      MappingMatches(request, capability);
      assert RequestedAs(request.required, capability);
      var k := RequirementOf(request, capability);
      assert request.requirements[k].required;
    }
  }

  lemma RequirementsAreValid(request: AdmissionRequest)
    requires ValidRequest(request)
    ensures forall i | 0 <= i < |request.requirements| :: request.requirements[i].Valid()
  {}

  /** Every resource of every grant lies under the prefix of some requested selector. */
  predicate GrantsWithinPrefixes(request: AdmissionRequest, grants: seq<Grant>) {
    forall i | 0 <= i < |grants| ::
      var requested := FindRequest(request.All(), grants[i].capability);
      requested.Some? && forall resource | resource in grants[i].resources :: WithinSomePrefix(resource, requested.value.ResourceSet())
  }

  lemma RequirementIsFound(requirements: seq<ResolvedRequirement>, i: nat)
    requires UniqueRequirements(requirements) && i < |requirements|
    ensures FindRequirement(requirements, requirements[i].Identity()) == Some(requirements[i])
  {
    var found := FindRequirement(requirements, requirements[i].Identity());
    assert found.Some?;
    var j :| 0 <= j < |requirements| && requirements[j] == found.value;
  }

  /** A collected grant passes every check of `validate_against` on it, apart from the prefix check on its resources. */
  lemma CollectedGrantMatches(facts: Facts, request: AdmissionRequest, parts: GrantSetParts, grant: Grant)
    requires UniqueRequirements(request.requirements) && parts.expiresAt == facts.expiresAt
    requires FromRequirement(facts, request.All(), request.requirements, grant)
    ensures GrantMatches(parts, request, grant) <==>
            (var requested := FindRequest(request.All(), grant.capability);
             requested.Some? && forall resource | resource in grant.resources :: WithinSomePrefix(resource, requested.value.ResourceSet()))
  {
    hide GrantNarrows, WithinEveryPlane, WithinSomePrefix, AllWithin;
    var i :| 0 <= i < |request.requirements| && GrantOk(facts, request.All(), request.requirements[i], grant);
    RequirementIsFound(request.requirements, i);
  }

  /**
   Assembling a grant set never fails, and the final `validate_against` accepts it exactly when its resources lie
   under the prefixes that were requested.
   */
  lemma FinalCheckDecidesPrefixes(facts: Facts, request: AdmissionRequest, backend: AuthorizationBackend)
    requires ValidFacts(facts) && ValidRequest(request) && RequestBound(facts, request)
    requires Collect(facts, backend, request.All(), request.requirements).Success?
    ensures
      var collected := Collect(facts, backend, request.All(), request.requirements).value;
      var parts := PartsFor(facts, request, collected);
      PartsOk(parts) && (ValidAgainst(parts, request) <==> GrantsWithinPrefixes(request, collected.grants))
  {
    hide ValidRequest, Collect, GrantMatches, FromRequirement, WithinSomePrefix, MappingHolds, LocksMatch;
    var collected := Collect(facts, backend, request.All(), request.requirements).value;
    var parts := PartsFor(facts, request, collected);
    CollectedPartitions(facts, request, backend);
    assert UniqueRequirements(request.requirements) by { LocksAreUnique(facts, request.requirements); }
    forall i | 0 <= i < |parts.grants|
      ensures GrantMatches(parts, request, parts.grants[i]) <==>
              (var requested := FindRequest(request.All(), parts.grants[i].capability);
               requested.Some? && forall resource | resource in parts.grants[i].resources :: WithinSomePrefix(resource, requested.value.ResourceSet()))
    {
      CollectedGrantMatches(facts, request, parts, parts.grants[i]);
    }
    forall i | 0 <= i < |request.optional|
      ensures GrantsFor(parts.grants, request.optional[i].capability) + DenialsFor(parts.denials, request.optional[i].capability) == 1
    {
      assert request.All()[|request.required| + i] == request.optional[i];
      assert RequestedAs(request.All(), request.optional[i].capability);
    }
    forall i | 0 <= i < |parts.denials|
      ensures RequestedAs(request.optional, parts.denials[i])
    {
      CountedDenial(parts.denials, i);
      MappingMatches(request, parts.denials[i]);
      if RequestedAs(request.required, parts.denials[i]) {
        RequiredIsGranted(request, parts.grants, parts.denials, parts.denials[i]);
      }
    }
  }

  lemma RequiredIsGranted(request: AdmissionRequest, grants: seq<Grant>, denials: seq<CapabilityIdentity>, capability: CapabilityIdentity)
    requires Partitions(request, grants, denials) && RequestedAs(request.required, capability)
    ensures DenialsFor(denials, capability) == 0
  {
    var i :| 0 <= i < |request.required| && request.required[i].capability == capability;
    assert GrantsFor(grants, request.required[i].capability) == 1;
    assert GrantsFor(grants, capability) + DenialsFor(denials, capability) <= 1;
  }

  lemma LocksAreUnique(facts: Facts, requirements: seq<ResolvedRequirement>)
    requires LocksMatch(facts, requirements)
    ensures UniqueRequirements(requirements)
  {}

  /** Every requested selector that parses has no wildcard but a final `:*`. */
  predicate FinalWildcardsOnly(request: AdmissionRequest) {
    forall i, k | 0 <= i < |request.All()| && 0 <= k < |request.All()[i].resources| && Parses(request.All()[i].resources[k]) ::
      WellFormed(Parse(request.All()[i].resources[k]).value) && FinalWildcardOnly(Parse(request.All()[i].resources[k]).value)
  }

  /** For such requests the segment order implies the prefix order, so the final check never rejects what was collected. */
  lemma FinalCheckNeverRejects(facts: Facts, request: AdmissionRequest, backend: AuthorizationBackend)
    requires ValidFacts(facts) && ValidRequest(request) && RequestBound(facts, request) && FinalWildcardsOnly(request)
    requires Collect(facts, backend, request.All(), request.requirements).Success?
    ensures
      var parts := PartsFor(facts, request, Collect(facts, backend, request.All(), request.requirements).value);
      PartsOk(parts) && ValidAgainst(parts, request)
  {
    hide ValidRequest, Collect, PartsOk, ValidAgainst, GrantsFor, Partitions;
    var collected := Collect(facts, backend, request.All(), request.requirements).value;
    FinalCheckDecidesPrefixes(facts, request, backend);
    CollectedPartitions(facts, request, backend);
    forall i | 0 <= i < |collected.grants|
      ensures
        var requested := FindRequest(request.All(), collected.grants[i].capability);
        requested.Some? && forall resource | resource in collected.grants[i].resources :: WithinSomePrefix(resource, requested.value.ResourceSet())
    {
      assert FromRequirement(facts, request.All(), request.requirements, collected.grants[i]);
      GrantLiesUnderPrefixes(facts, request, collected.grants[i]);
    }
  }

  lemma GrantLiesUnderPrefixes(facts: Facts, request: AdmissionRequest, grant: Grant)
    requires FinalWildcardsOnly(request) && FromRequirement(facts, request.All(), request.requirements, grant)
    ensures
      var requested := FindRequest(request.All(), grant.capability);
      requested.Some? && forall resource | resource in grant.resources :: WithinSomePrefix(resource, requested.value.ResourceSet())
  {
    hide GrantNarrows, WithinEveryPlane;
    var requested := FindRequest(request.All(), grant.capability).value;
    var n :| 0 <= n < |request.All()| && request.All()[n] == requested;
    forall resource | resource in grant.resources
      ensures WithinSomePrefix(resource, requested.ResourceSet())
    {
      assert WithinAny(resource, requested.ResourceSet());
      var selector :| selector in requested.ResourceSet() && IsSubset(resource, selector);
      var k :| 0 <= k < |requested.resources| && requested.resources[k] == selector;
      assert request.All()[n].resources[k] == selector;
      SubsetIsWithinPrefix(resource, selector);
    }
  }

  // ---------------------------------------------------------------- persisted admissions

  datatype PersistedAdmission = PersistedAdmission(grantSet: GrantSet, locked: map<CapabilityIdentity, Descriptor>)

  /** A persisted grant: locked, narrowed to its lock and within every plane. */
  ghost predicate PersistedGrantOk(facts: Facts, locked: map<CapabilityIdentity, Descriptor>, grant: Grant) {
    && grant.Valid()
    && grant.capability in locked && locked[grant.capability].identity == grant.capability
    && GrantNarrows(grant, locked[grant.capability], facts.expiresAt)
    && WithinEveryPlane(facts, grant)
  }

  ghost predicate PersistedOk(facts: Facts, persisted: PersistedAdmission) {
    var parts := persisted.grantSet.parts;
    && parts.expiresAt == facts.expiresAt && parts.issuedAt == facts.issuedAt && parts.revisions == facts.revisions
    && UniqueGrants(parts.grants)
    && forall i | 0 <= i < |parts.grants| :: PersistedGrantOk(facts, persisted.locked, parts.grants[i])
  }

  /** What `admit` persists is in order. */
  lemma AdmittedIsPersistable(facts: Facts, digestOf: GrantSetParts -> string, request: AdmissionRequest, backend: AuthorizationBackend)
    requires ValidFacts(facts) && ValidRequest(request) && Admit(facts, digestOf, request, backend).Success?
    ensures PersistedOk(facts, PersistedAdmission(Admit(facts, digestOf, request, backend).value, Locks(request.requirements)))
    ensures
      var parts := Admit(facts, digestOf, request, backend).value.parts;
      Partitions(request, parts.grants, parts.denials)
  {
    hide ValidRequest, Collect, PersistedGrantOk, GrantOk, PartsOk, ValidAgainst;
    var collected := Collect(facts, backend, request.All(), request.requirements).value;
    CollectedPartitions(facts, request, backend);
    forall i | 0 <= i < |collected.grants|
      ensures PersistedGrantOk(facts, Locks(request.requirements), collected.grants[i])
    {
      assert FromRequirement(facts, request.All(), request.requirements, collected.grants[i]);
      GrantIsPersistable(facts, request, collected.grants[i]);
    }
  }

  lemma GrantIsPersistable(facts: Facts, request: AdmissionRequest, grant: Grant)
    requires UniqueRequirements(request.requirements) && FromRequirement(facts, request.All(), request.requirements, grant)
    ensures PersistedGrantOk(facts, Locks(request.requirements), grant)
  {
    hide GrantNarrows, WithinEveryPlane, AllWithin, Grant.Valid;
    var i :| 0 <= i < |request.requirements| && GrantOk(facts, request.All(), request.requirements[i], grant);
    LockOf(request.requirements, i);
  }

  /** `InvocationAdmission::try_new`, on locks indexed by their identity. */
  predicate Loads(grantSet: GrantSet, locked: map<CapabilityIdentity, Descriptor>) {
    forall i | 0 <= i < |grantSet.parts.grants| ::
      var grant := grantSet.parts.grants[i];
      && grant.capability in locked && grant.capability == locked[grant.capability].identity
      && GrantNarrows(grant, locked[grant.capability], grantSet.parts.expiresAt)
  }

  method TryNewInvocationAdmission(grantSet: GrantSet, locked: map<CapabilityIdentity, Descriptor>) returns (r: Result<(), AdmissionError>)
    ensures r.Success? <==> Loads(grantSet, locked)
  {
    for i := 0 to |grantSet.parts.grants|
      invariant forall k | 0 <= k < i ::
                  var grant := grantSet.parts.grants[k];
                  && grant.capability in locked && grant.capability == locked[grant.capability].identity
                  && GrantNarrows(grant, locked[grant.capability], grantSet.parts.expiresAt)
    {
      var grant := grantSet.parts.grants[i];
      if grant.capability !in locked {
        return Failure(CapabilityRejected);
      }
      var descriptor := locked[grant.capability];
      if grant.capability != descriptor.identity || !GrantNarrows(grant, descriptor, grantSet.parts.expiresAt) {
        return Failure(GrantSetInvalid);
      }
    }
    r := Success(());
  }

  /** Every persisted admission loads. */
  lemma PersistedLoads(facts: Facts, persisted: PersistedAdmission)
    requires PersistedOk(facts, persisted)
    ensures Loads(persisted.grantSet, persisted.locked)
  {
    hide GrantNarrows;
    forall i | 0 <= i < |persisted.grantSet.parts.grants|
      ensures
        var grant := persisted.grantSet.parts.grants[i];
        && grant.capability in persisted.locked && grant.capability == persisted.locked[grant.capability].identity
        && GrantNarrows(grant, persisted.locked[grant.capability], persisted.grantSet.parts.expiresAt)
    {
      assert PersistedGrantOk(facts, persisted.locked, persisted.grantSet.parts.grants[i]);
    }
  }

  // ---------------------------------------------------------------- point of use

  datatype Decision = Denied | Allowed(revisions: string, decidedAt: Timestamp, resources: set<string>, expiresAt: Timestamp)

  /** What an invocation meets at its point of use; `oracles` is every check outside the model. */
  datatype Surroundings = Surroundings(
    now: Timestamp, dispatchNow: Timestamp, currentRevisions: string, decision: Decision, principalsExpireAt: Timestamp, oracles: bool)

  /** The only grant for a capability. */
  function EffectiveGrant(grants: seq<Grant>, capability: CapabilityIdentity): (grant: Option<Grant>)
    ensures grant.Some? ==> grant.value in grants && grant.value.capability == capability
  {
    if grants == [] then None
    else if grants[0].capability == capability then
      if GrantsFor(grants[1..], capability) == 0 then Some(grants[0]) else None
    else EffectiveGrant(grants[1..], capability)
  }

  /** `validate_freshness`. A grant that bounds the age of inputs cannot be used at all. */
  predicate FreshEnough(parts: GrantSetParts, grant: Grant, descriptor: Descriptor, currentRevisions: string, now: Timestamp) {
    && currentRevisions == parts.revisions
    && (descriptor.freshness.policyRevisionRequired ==> grant.freshness.policyRevisionRequired)
    && (grant.freshness.maxAdmissionAge.Some? ==> parts.issuedAt <= now && now - parts.issuedAt <= grant.freshness.maxAdmissionAge.value)
    && grant.freshness.maxInputAge.None?
  }

  predicate ModePermitted(grant: Grant, descriptor: Descriptor, mode: ExecutionMode) {
    mode in descriptor.modes && mode in grant.modes
  }

  /** `validate_authorization`. */
  predicate DecisionAllows(decision: Decision, resource: string, around: Surroundings) {
    && decision.Allowed?
    && decision.revisions == around.currentRevisions
    && decision.decidedAt <= around.dispatchNow < decision.expiresAt
    && WithinAny(resource, decision.resources)
  }

  /** Every check of `validate` on one grant and its lock, up to the call of the operation. */
  predicate GrantPermits(parts: GrantSetParts, grant: Grant, descriptor: Descriptor, resource: string, around: Surroundings) {
    && grant.capability == descriptor.identity
    && GrantNarrows(grant, descriptor, parts.expiresAt)
    && around.now < parts.expiresAt && around.now < grant.expiresAt
    && EffectAtMost(descriptor.effect, grant.maximumEffect)
    && ModePermitted(grant, descriptor, if descriptor.effect.ReadOnly? then Immediate else ExecutionMode.Deferred)
    && FreshEnough(parts, grant, descriptor, around.currentRevisions, around.now)
    && IsConcrete(resource) && WithinAny(resource, grant.resources)
    && around.dispatchNow < parts.expiresAt && around.dispatchNow < grant.expiresAt && around.dispatchNow < around.principalsExpireAt
    && DecisionAllows(around.decision, resource, around)
    && around.oracles
  }

  predicate MayDispatch(persisted: PersistedAdmission, capability: CapabilityIdentity, resource: string, around: Surroundings) {
    var parts := persisted.grantSet.parts;
    var grant := EffectiveGrant(parts.grants, capability);
    && capability in persisted.locked
    && grant.Some?
    && GrantPermits(parts, grant.value, persisted.locked[capability], resource, around)
  }

  /** What every plane says about a dispatched resource. */
  ghost predicate PlaneAllows(facts: Facts, capability: CapabilityIdentity, effect: Effect, resource: string, at: Timestamp, domain: Domain) {
    var plane := PlaneOf(facts.sources, domain);
    && plane.Some?
    && TermsFor(plane.value, capability) != []
    && (forall term | term in plane.value && term.Deny? :: term.name != capability.name)
    && forall term | term in plane.value && term.Allow? && term.grant.capability == capability ::
         && DenotedByAny(term.grant.resources, resource)
         && EffectAtMost(effect, term.grant.maximumEffect)
         && at < term.grant.expiresAt
  }

  lemma TermAllows(grant: Grant, term: Grant, resource: string)
    requires IsSubsetOf(grant, term) && IsConcrete(resource) && WithinAny(resource, grant.resources)
    ensures DenotedByAny(term.resources, resource)
  {
    WithinAnyTransitive(resource, grant.resources, term.resources);
    var selector :| selector in term.resources && IsSubset(resource, selector);
    DenotesIsMatching(selector, resource);
  }

  /**
   A resource that reaches the operation through an admission the service persisted is concrete, every one of
   the six planes speaks about the capability and none denies it, and every term of every plane for it denotes
   the resource, allows the operation's effect and is unexpired at dispatch.
   */
  lemma DispatchIsWithinEveryPlane(facts: Facts, persisted: PersistedAdmission, capability: CapabilityIdentity, resource: string, around: Surroundings)
    requires PersistedOk(facts, persisted) && MayDispatch(persisted, capability, resource, around)
    ensures IsConcrete(resource)
    ensures forall domain: Domain :: PlaneAllows(facts, capability, persisted.locked[capability].effect, resource, around.dispatchNow, domain)
  {
    hide GrantNarrows, FreshEnough, DecisionAllows, IsConcrete, WithinAny, IsSubsetOf, DenotedByAny;
    var grant := EffectiveGrant(persisted.grantSet.parts.grants, capability).value;
    var i :| 0 <= i < |persisted.grantSet.parts.grants| && persisted.grantSet.parts.grants[i] == grant;
    assert PersistedGrantOk(facts, persisted.locked, grant);
    forall domain: Domain
      ensures PlaneAllows(facts, capability, persisted.locked[capability].effect, resource, around.dispatchNow, domain)
    {
      assert WithinPlane(facts, grant, domain);
      PlaneAllowsDispatch(facts, grant, capability, persisted.locked[capability].effect, resource, around.dispatchNow, domain);
    }
  }

  lemma PlaneAllowsDispatch(facts: Facts, grant: Grant, capability: CapabilityIdentity, effect: Effect, resource: string, at: Timestamp, domain: Domain)
    requires WithinPlane(facts, grant, domain) && grant.capability == capability
    requires IsConcrete(resource) && WithinAny(resource, grant.resources) && EffectAtMost(effect, grant.maximumEffect) && at < grant.expiresAt
    ensures PlaneAllows(facts, capability, effect, resource, at, domain)
  {
    hide IsConcrete, WithinAny, DenotedByAny;
    var plane := PlaneOf(facts.sources, domain).value;
    forall term | term in plane && term.Allow? && term.grant.capability == capability
      ensures DenotedByAny(term.grant.resources, resource) && EffectAtMost(effect, term.grant.maximumEffect) && at < term.grant.expiresAt
    {
      assert term in TermsFor(plane, capability);
      TermAllows(grant, term.grant, resource);
    }
    forall term | term in plane && term.Deny?
      ensures term.name != capability.name
    {
      assert TermMatches(term, capability) ==> term in TermsFor(plane, capability);
    }
  }

  // ---------------------------------------------------------------- the service object

  lemma {:induction false} CollectStops(facts: Facts, backend: AuthorizationBackend, requests: seq<Requested>, requirements: seq<ResolvedRequirement>, k: nat)
    requires k <= |requirements| && Collect(facts, backend, requests, requirements[..k]).Failure?
    ensures Collect(facts, backend, requests, requirements) == Collect(facts, backend, requests, requirements[..k])
    decreases |requirements|
  {
    if k == |requirements| {
      assert requirements[..k] == requirements;
    } else {
      assert requirements[..|requirements| - 1][..k] == requirements[..k];
      CollectStops(facts, backend, requests, requirements[..|requirements| - 1], k);
    }
  }

  class AdmissionService {
    const facts: Facts
    const digestOf: GrantSetParts -> string
    var admissions: map<(string, string), PersistedAdmission>

    ghost predicate Valid()
      reads this
    {
      ValidFacts(facts) && forall key | key in admissions :: PersistedOk(facts, admissions[key])
    }

    constructor (facts: Facts, digestOf: GrantSetParts -> string)
      requires ValidFacts(facts)
      ensures Valid() && this.facts == facts && this.digestOf == digestOf && admissions == map[]
    {
      this.facts, this.digestOf, admissions := facts, digestOf, map[];
    }

    /** One requirement of the loop in `Admit`. */
    method AdmitRequirement(requested: Requested, requirement: ResolvedRequirement, backend: AuthorizationBackend, sofar: Collected)
      returns (r: Result<Collected, AdmissionError>)
      requires requirement.Valid()
      ensures r == CollectOne(facts, backend, requested, requirement, sofar)
    {
      hide AdmitCapability, DynamicallyAdmissible;
      var dynamic := CheckDynamically(backend, requested);
      if dynamic.Failure? {
        return Failure(dynamic.error);
      }
      if requirement.required {
        if !dynamic.value {
          return Failure(AdmissionDenied);
        }
        var admitted := AdmitOne(facts, requested, requirement);
        if admitted.Failure? {
          return Failure(admitted.error);
        }
        if admitted.value.None? {
          return Failure(AdmissionDenied);
        }
        return Success(sofar.(grants := sofar.grants + [admitted.value.value]));
      }
      if !dynamic.value {
        return Success(sofar.(denials := sofar.denials + [requested.capability]));
      }
      var admitted := AdmitOne(facts, requested, requirement);
      match admitted
      case Success(Some(grant)) =>
        r := Success(sofar.(grants := sofar.grants + [grant]));
      case Success(None) =>
        r := Success(sofar.(denials := sofar.denials + [requested.capability]));
      case Failure(error) =>
        r := if error == AdmissionDenied then Success(sofar.(denials := sofar.denials + [requested.capability])) else Failure(error);
    }

    method CollectAll(request: AdmissionRequest, backend: AuthorizationBackend) returns (r: Result<Collected, AdmissionError>)
      requires forall i | 0 <= i < |request.requirements| :: request.requirements[i].Valid()
      ensures r == Collect(facts, backend, request.All(), request.requirements)
    {
      var requirements := request.requirements;
      var collected := Collected([], []);
      for k := 0 to |requirements|
        invariant Collect(facts, backend, request.All(), requirements[..k]) == Success(collected)
      {
        hide CollectOne;
        assert requirements[..k + 1][..k] == requirements[..k];
        var requested := FindRequest(request.All(), requirements[k].Identity());
        if requested.None? {
          CollectStops(facts, backend, request.All(), requirements, k + 1);
          return Failure(CapabilityRejected);
        }
        var next := AdmitRequirement(requested.value, requirements[k], backend, collected);
        if next.Failure? {
          CollectStops(facts, backend, request.All(), requirements, k + 1);
          return Failure(next.error);
        }
        collected := next.value;
      }
      assert requirements[..|requirements|] == requirements;
      r := Success(collected);
    }

    /** `admit`: what is returned is persisted under its ID and digest, and loads. */
    method Admit(request: AdmissionRequest, backend: AuthorizationBackend) returns (r: Result<GrantSet, AdmissionError>)
      requires Valid() && ValidRequest(request)
      modifies this
      ensures Valid() && r == Admission.Admit(facts, digestOf, request, backend)
      ensures r.Success? ==> Partitions(request, r.value.parts.grants, r.value.parts.denials)
      ensures admissions == if r.Success? then old(admissions)[(r.value.parts.admissionId, r.value.digest) := PersistedAdmission(r.value, Locks(request.requirements))]
                            else old(admissions)
    {
      hide PersistedOk, Collect, Partitions, ValidAgainst, PartsOk;
      if request.catalog != facts.catalog {
        return Failure(CatalogStale);
      }
      var locks := ValidateRequestLocks(facts, request.requirements);
      if locks.Failure? {
        return Failure(locks.error);
      }
      if !MappingHolds(request) {
        return Failure(CapabilityRejected);
      }
      if backend.revisions.None? {
        return Failure(BackendFailed);
      }
      if backend.revisions.value != facts.revisions {
        return Failure(AdmissionDenied);
      }
      var collected := CollectAll(request, backend);
      if collected.Failure? {
        return Failure(collected.error);
      }
      var parts := PartsFor(facts, request, collected.value);
      if !PartsOk(parts) || !ValidAgainst(parts, request) {
        return Failure(GrantSetInvalid);
      }
      var grantSet := GrantSet(parts, digestOf(parts));
      AdmittedIsPersistable(facts, digestOf, request, backend);
      admissions := admissions[(parts.admissionId, grantSet.digest) := PersistedAdmission(grantSet, locks.value)];
      r := Success(grantSet);
    }

    /** `load`: exactly the persisted admissions load. */
    method Load(admissionId: string, digest: string) returns (r: Result<PersistedAdmission, AdmissionError>)
      requires Valid()
      ensures r == if (admissionId, digest) in admissions then Success(admissions[(admissionId, digest)]) else Failure(CapabilityRejected)
    {
      if (admissionId, digest) !in admissions {
        return Failure(CapabilityRejected);
      }
      var persisted := admissions[(admissionId, digest)];
      PersistedLoads(facts, persisted);
      var loaded := TryNewInvocationAdmission(persisted.grantSet, persisted.locked);
      assert loaded.Success?;
      r := Success(persisted);
    }

    /** The checks of `validate` in order; a resource that passes lies within every plane. */
    method CheckPointOfUse(admissionId: string, digest: string, capability: CapabilityIdentity, resource: string, around: Surroundings)
      returns (r: Result<(), AdmissionError>)
      requires Valid()
      ensures r.Success? <==> (admissionId, digest) in admissions && MayDispatch(admissions[(admissionId, digest)], capability, resource, around)
      ensures r.Success? ==>
                var descriptor := admissions[(admissionId, digest)].locked[capability];
                IsConcrete(resource) && forall domain: Domain :: PlaneAllows(facts, capability, descriptor.effect, resource, around.dispatchNow, domain)
    {
      hide PlaneAllows, PersistedOk;
      var loaded := Load(admissionId, digest);
      if loaded.Failure? {
        return Failure(loaded.error);
      }
      var parts, locked := loaded.value.grantSet.parts, loaded.value.locked;
      if capability !in locked {
        return Failure(CapabilityRejected);
      }
      var found := EffectiveGrant(parts.grants, capability);
      if found.None? {
        return Failure(GrantSetInvalid);
      }
      var permitted := CheckGrant(parts, found.value, locked[capability], resource, around);
      if !permitted {
        return Failure(AdmissionDenied);
      }
      DispatchIsWithinEveryPlane(facts, loaded.value, capability, resource, around);
      r := Success(());
    }
  }

  method CheckGrant(parts: GrantSetParts, grant: Grant, descriptor: Descriptor, resource: string, around: Surroundings) returns (ok: bool)
    ensures ok <==> GrantPermits(parts, grant, descriptor, resource, around)
  {
    if grant.capability != descriptor.identity || !GrantNarrows(grant, descriptor, parts.expiresAt) {
      return false;
    }
    if parts.expiresAt <= around.now || grant.expiresAt <= around.now {
      return false;
    }
    if !EffectAtMost(descriptor.effect, grant.maximumEffect) {
      return false;
    }
    if descriptor.effect.ReadOnly? && !ModePermitted(grant, descriptor, Immediate) {
      return false;
    }
    if !FreshEnough(parts, grant, descriptor, around.currentRevisions, around.now) {
      return false;
    }
    var concrete := ValidateConcrete(resource);
    if concrete.Failure? || !WithinAny(resource, grant.resources) {
      return false;
    }
    if parts.expiresAt <= around.dispatchNow || grant.expiresAt <= around.dispatchNow || around.principalsExpireAt <= around.dispatchNow {
      return false;
    }
    if !DecisionAllows(around.decision, resource, around) {
      return false;
    }
    if !descriptor.effect.ReadOnly? && !ModePermitted(grant, descriptor, ExecutionMode.Deferred) {
      return false;
    }
    ok := around.oracles;
  }
}
