/**
 Admission: crates/kiteframe-provider/src/admission.rs, with the request and grant-set checks of
 crates/kiteframe-contract/src/service.rs.

 The authorization backend is an oracle and the digests are functions of what they digest. A locked capability is
 its descriptor. Vectors that are sorted for the wire keep their order of collection.
 */
module Admission {
  import opened Outcomes
  import opened Text
  import opened Contract
  import opened ResourceSelectors
  import opened Authority

  // ---------------------------------------------------------------- requests

  /** One requested capability; its resources may be empty, and are in the order in which they are checked. */
  datatype Requested = Requested(capability: CapabilityIdentity, resources: seq<string>)
  {
    function ResourceSet(): set<string> {
      set resource | resource in resources
    }
  }

  datatype Parties = Parties(actor: string, agent: string, task: string, session: string)

  datatype Catalog = Catalog(identity: string, digest: string)

  datatype AdmissionRequest = AdmissionRequest(
    parties: Parties, catalog: Catalog, required: seq<Requested>, optional: seq<Requested>,
    requirements: seq<ResolvedRequirement>, ancestryDigest: string, digest: string)
  {
    function All(): seq<Requested> {
      required + optional
    }
  }

  predicate UniqueRequests(requests: seq<Requested>) {
    forall i, j | 0 <= i < j < |requests| :: requests[i].capability != requests[j].capability
  }

  function FindRequirement(requirements: seq<ResolvedRequirement>, capability: CapabilityIdentity): (found: Option<ResolvedRequirement>)
    ensures found.Some? ==> found.value in requirements && found.value.Identity() == capability
    ensures found.None? ==> forall i | 0 <= i < |requirements| :: requirements[i].Identity() != capability
  {
    if requirements == [] then None
    else if requirements[0].Identity() == capability then Some(requirements[0])
    else FindRequirement(requirements[1..], capability)
  }

  /** What `AdmissionRequest::try_new`, and the constructors of its parts, guarantee. */
  predicate ValidRequest(request: AdmissionRequest) {
    && UniqueRequests(request.All())
    && (forall i | 0 <= i < |request.requirements| :: request.requirements[i].Valid())
    && forall i | 0 <= i < |request.All()| ::
         var requested := request.All()[i];
         var found := FindRequirement(request.requirements, requested.capability);
         && found.Some?
         && forall k | 0 <= k < |requested.resources| ::
              !Blank(requested.resources[k]) && WithinSomePrefix(requested.resources[k], found.value.resources)
  }

  // ---------------------------------------------------------------- the service and its authority

  datatype Domain = PackageDomain | DeploymentDomain | HumanDomain | WorkloadDomain | TaskDomain | SessionDomain

  const ALL_DOMAINS: seq<Domain> :=
    [PackageDomain, DeploymentDomain, HumanDomain, WorkloadDomain, TaskDomain, SessionDomain]

  type Planes = map<Domain, seq<AuthorityTerm>>

  /** What an admission service is configured with. */
  datatype Facts = Facts(
    catalog: Catalog, registry: map<CapabilityIdentity, Descriptor>, sources: seq<Planes>,
    revisions: string, policyRevision: string, issuedAt: Timestamp, expiresAt: Timestamp)

  /** What `AdmissionService::try_new` guarantees. */
  predicate ValidFacts(facts: Facts) {
    && facts.issuedAt < facts.expiresAt
    && (forall capability | capability in facts.registry :: facts.registry[capability].identity == capability)
    && (forall i, d | 0 <= i < |facts.sources| && d in facts.sources[i] :: ValidTerms(facts.sources[i][d]))
    && forall i, j, d | 0 <= i < j < |facts.sources| && d in facts.sources[i] :: d !in facts.sources[j]
  }

  datatype AdmissionError =
    | CatalogStale
    | CapabilityRejected
    | AdmissionDenied
    | BackendFailed
    | GrantSetInvalid

  /** The authorization backend; a None is a failed call. */
  datatype AuthorizationBackend = AuthorizationBackend(
    revisions: Option<string>, listAdmissible: (CapabilityIdentity, string) -> Option<bool>)

  predicate TermMatches(term: AuthorityTerm, capability: CapabilityIdentity) {
    match term
    case Allow(grant) => grant.capability == capability
    case Deny(name) => name == capability.name
  }

  function TermsFor(terms: seq<AuthorityTerm>, capability: CapabilityIdentity): (matching: seq<AuthorityTerm>)
    ensures forall i | 0 <= i < |matching| :: matching[i] in terms && TermMatches(matching[i], capability)
    ensures forall term | term in terms && TermMatches(term, capability) :: term in matching
  {
    if terms == [] then []
    else TermsFor(terms[..|terms| - 1], capability) + if TermMatches(terms[|terms| - 1], capability) then [terms[|terms| - 1]] else []
  }

  /** The plane of a domain: the first source that has one. */
  function PlaneOf(sources: seq<Planes>, domain: Domain): Option<seq<AuthorityTerm>> {
    if sources == [] then None
    else if domain in sources[0] then Some(sources[0][domain])
    else PlaneOf(sources[1..], domain)
  }

  /** The terms of all these planes for a capability; None if a plane is missing or says nothing about it. */
  function CollectTerms(sources: seq<Planes>, domains: seq<Domain>, capability: CapabilityIdentity): Option<seq<AuthorityTerm>> {
    if domains == [] then Some([])
    else
      var earlier := CollectTerms(sources, domains[..|domains| - 1], capability);
      var plane := PlaneOf(sources, domains[|domains| - 1]);
      if earlier.None? || plane.None? then None
      else
        var terms := TermsFor(plane.value, capability);
        if terms == [] then None else Some(earlier.value + terms)
  }

  /** `request_boundary`: what was asked for, until the session expires. */
  function Boundary(requirement: ResolvedRequirement, requested: Requested, expiresAt: Timestamp): Grant {
    Grant(requirement.Identity(), requested.ResourceSet(), requirement.descriptor.modes, requirement.descriptor.effect, expiresAt,
          requirement.descriptor.evidence, requirement.descriptor.freshness, requirement.descriptor.preconditions)
  }

  /** `admit_capability`. */
  function AdmitCapability(facts: Facts, requested: Requested, requirement: ResolvedRequirement): Result<Option<Grant>, AdmissionError> {
    if requirement.Identity() != requested.capability then Failure(CapabilityRejected)
    else
      var terms := CollectTerms(facts.sources, ALL_DOMAINS, requested.capability);
      if terms.None? then Success(None)
      else if requested.resources == [] then Failure(CapabilityRejected)
      else
        var met := Intersection(requirement, terms.value + [Allow(Boundary(requirement, requested, facts.expiresAt))]);
        if met.Failure? then Failure(AdmissionDenied) else Success(met.value)
  }

  /** `dynamically_admissible`: resources are asked about in order until one is not admissible. */
  function DynamicallyAdmissible(backend: AuthorizationBackend, capability: CapabilityIdentity, resources: seq<string>): Result<bool, AdmissionError> {
    if resources == [] then Success(true)
    else
      match backend.listAdmissible(capability, resources[0])
      case None => Failure(BackendFailed)
      case Some(admissible) =>
        if admissible then DynamicallyAdmissible(backend, capability, resources[1..]) else Success(false)
  }

  method CheckDynamically(backend: AuthorizationBackend, requested: Requested) returns (r: Result<bool, AdmissionError>)
    ensures r == DynamicallyAdmissible(backend, requested.capability, requested.resources)
  {
    var resources := requested.resources;
    for i := 0 to |resources|
      invariant DynamicallyAdmissible(backend, requested.capability, resources) == DynamicallyAdmissible(backend, requested.capability, resources[i..])
    {
      assert resources[i..][1..] == resources[i + 1..];
      var answer := backend.listAdmissible(requested.capability, resources[i]);
      if answer.None? {
        return Failure(BackendFailed);
      }
      if !answer.value {
        return Success(false);
      }
    }
    r := Success(true);
  }

  method AdmitOne(facts: Facts, requested: Requested, requirement: ResolvedRequirement) returns (r: Result<Option<Grant>, AdmissionError>)
    requires requirement.Valid()
    ensures r == AdmitCapability(facts, requested, requirement)
  {
    if requirement.Identity() != requested.capability {
      return Failure(CapabilityRejected);
    }
    var terms: seq<AuthorityTerm> := [];
    for k := 0 to |ALL_DOMAINS|
      invariant CollectTerms(facts.sources, ALL_DOMAINS[..k], requested.capability) == Some(terms)
    {
      assert ALL_DOMAINS[..k + 1][..k] == ALL_DOMAINS[..k];
      var plane := PlaneOf(facts.sources, ALL_DOMAINS[k]);
      if plane.None? {
        MissingStays(facts.sources, ALL_DOMAINS, requested.capability, k + 1);
        return Success(None);
      }
      var planeTerms := TermsFor(plane.value, requested.capability);
      if planeTerms == [] {
        MissingStays(facts.sources, ALL_DOMAINS, requested.capability, k + 1);
        return Success(None);
      }
      terms := terms + planeTerms;
    }
    assert ALL_DOMAINS[..|ALL_DOMAINS|] == ALL_DOMAINS;
    if requested.resources == [] {
      return Failure(CapabilityRejected);
    }
    terms := terms + [Allow(Boundary(requirement, requested, facts.expiresAt))];
    var met := IntersectAuthority(requirement, terms);
    if met.Failure? {
      return Failure(AdmissionDenied);
    }
    r := Success(met.value);
  }

  lemma {:induction false} MissingStays(sources: seq<Planes>, domains: seq<Domain>, capability: CapabilityIdentity, k: nat)
    requires k <= |domains| && CollectTerms(sources, domains[..k], capability).None?
    ensures CollectTerms(sources, domains, capability).None?
    decreases |domains|
  {
    if k == |domains| {
      assert domains[..k] == domains;
    } else {
      assert domains[..|domains| - 1][..k] == domains[..k];
      MissingStays(sources, domains[..|domains| - 1], capability, k);
    }
  }

  // ---------------------------------------------------------------- collecting grants and denials

  datatype Collected = Collected(grants: seq<Grant>, denials: seq<CapabilityIdentity>)

  function FindRequest(requests: seq<Requested>, capability: CapabilityIdentity): (found: Option<Requested>)
    ensures found.Some? ==> found.value in requests && found.value.capability == capability
    ensures found.None? ==> forall i | 0 <= i < |requests| :: requests[i].capability != capability
  {
    if requests == [] then None
    else if requests[0].capability == capability then Some(requests[0])
    else FindRequest(requests[1..], capability)
  }

  /** One requirement's turn in the loop of `admit`; an optional capability that is refused is recorded as denied. */
  function CollectOne(facts: Facts, backend: AuthorizationBackend, requested: Requested, requirement: ResolvedRequirement, sofar: Collected)
    : Result<Collected, AdmissionError>
  {
    var dynamic := DynamicallyAdmissible(backend, requested.capability, requested.resources);
    if dynamic.Failure? then Failure(dynamic.error)
    else if requirement.required then
      if !dynamic.value then Failure(AdmissionDenied)
      else
        match AdmitCapability(facts, requested, requirement)
        case Failure(error) => Failure(error)
        case Success(None) => Failure(AdmissionDenied)
        case Success(Some(grant)) => Success(sofar.(grants := sofar.grants + [grant]))
    else if !dynamic.value then Success(sofar.(denials := sofar.denials + [requested.capability]))
    else
      match AdmitCapability(facts, requested, requirement)
      case Success(Some(grant)) => Success(sofar.(grants := sofar.grants + [grant]))
      case Success(None) => Success(sofar.(denials := sofar.denials + [requested.capability]))
      case Failure(error) =>
        if error == AdmissionDenied then Success(sofar.(denials := sofar.denials + [requested.capability])) else Failure(error)
  }

  function Collect(facts: Facts, backend: AuthorizationBackend, requests: seq<Requested>, requirements: seq<ResolvedRequirement>): Result<Collected, AdmissionError> {
    if requirements == [] then Success(Collected([], []))
    else
      var last := |requirements| - 1;
      match Collect(facts, backend, requests, requirements[..last])
      case Failure(error) => Failure(error)
      case Success(sofar) =>
        var requested := FindRequest(requests, requirements[last].Identity());
        if requested.None? then Failure(CapabilityRejected)
        else CollectOne(facts, backend, requested.value, requirements[last], sofar)
  }

  // ---------------------------------------------------------------- the checks around the loop

  /** `validate_request_locks`. */
  predicate LocksMatch(facts: Facts, requirements: seq<ResolvedRequirement>) {
    && (forall i | 0 <= i < |requirements| ::
          requirements[i].Identity() in facts.registry && facts.registry[requirements[i].Identity()] == requirements[i].descriptor)
    && UniqueRequirements(requirements)
  }

  function Locks(requirements: seq<ResolvedRequirement>): map<CapabilityIdentity, Descriptor> {
    if requirements == [] then map[]
    else Locks(requirements[..|requirements| - 1])[requirements[|requirements| - 1].Identity() := requirements[|requirements| - 1].descriptor]
  }

  predicate HasRequirement(requirements: seq<ResolvedRequirement>, capability: CapabilityIdentity) {
    exists i | 0 <= i < |requirements| :: requirements[i].Identity() == capability
  }

  lemma {:induction false} LocksAreOfRequirements(requirements: seq<ResolvedRequirement>, capability: CapabilityIdentity)
    ensures capability in Locks(requirements) <==> HasRequirement(requirements, capability)
    decreases |requirements|
  {
    if requirements != [] {
      var last := |requirements| - 1;
      LocksAreOfRequirements(requirements[..last], capability);
      if HasRequirement(requirements[..last], capability) {
        var i :| 0 <= i < last && requirements[..last][i].Identity() == capability;
        assert requirements[i].Identity() == capability;
      }
      if HasRequirement(requirements, capability) {
        var i :| 0 <= i < |requirements| && requirements[i].Identity() == capability;
        assert i < last ==> requirements[..last][i] == requirements[i];
      }
    }
  }

  lemma {:induction false} LockOf(requirements: seq<ResolvedRequirement>, i: nat)
    requires UniqueRequirements(requirements) && i < |requirements|
    ensures requirements[i].Identity() in Locks(requirements) && Locks(requirements)[requirements[i].Identity()] == requirements[i].descriptor
    decreases |requirements|
  {
    if i < |requirements| - 1 {
      LockOf(requirements[..|requirements| - 1], i);
    }
  }

  lemma LocksMatchStep(facts: Facts, requirements: seq<ResolvedRequirement>, k: nat)
    requires k < |requirements| && LocksMatch(facts, requirements[..k])
    ensures LocksMatch(facts, requirements[..k + 1]) <==>
            && requirements[k].Identity() in facts.registry && facts.registry[requirements[k].Identity()] == requirements[k].descriptor
            && !HasRequirement(requirements[..k], requirements[k].Identity())
    ensures LocksMatch(facts, requirements) ==> LocksMatch(facts, requirements[..k + 1])
  {
    var longer := requirements[..k + 1];
    assert longer[..k] == requirements[..k] && longer[k] == requirements[k];
    if HasRequirement(requirements[..k], requirements[k].Identity()) {
      var i :| 0 <= i < k && requirements[..k][i].Identity() == requirements[k].Identity();
      assert longer[i].Identity() == longer[k].Identity();
    }
    if LocksMatch(facts, longer) {
      assert longer[k].Identity() in facts.registry;
    }
  }

  method ValidateRequestLocks(facts: Facts, requirements: seq<ResolvedRequirement>)
    returns (r: Result<map<CapabilityIdentity, Descriptor>, AdmissionError>)
    ensures r == if LocksMatch(facts, requirements) then Success(Locks(requirements)) else Failure(CapabilityRejected)
    ensures r.Success? <==>
            && (forall i | 0 <= i < |requirements| ::
                  && requirements[i].descriptor.identity in facts.registry
                  && requirements[i].descriptor == facts.registry[requirements[i].descriptor.identity])
            && (forall i, j | 0 <= i < j < |requirements| :: requirements[i].descriptor.identity != requirements[j].descriptor.identity)
    ensures r.Success? ==> forall capability :: capability in r.value <==> HasRequirement(requirements, capability)
    ensures r.Success? ==> forall i | 0 <= i < |requirements| ::
              requirements[i].Identity() in r.value && r.value[requirements[i].Identity()] == requirements[i].descriptor
  {
    var validated: map<CapabilityIdentity, Descriptor> := map[];
    for k := 0 to |requirements|
      invariant LocksMatch(facts, requirements[..k]) && validated == Locks(requirements[..k])
    {
      hide LocksMatch;
      var requirement := requirements[k];
      LocksMatchStep(facts, requirements, k);
      LocksAreOfRequirements(requirements[..k], requirement.Identity());
      assert requirements[..k + 1][..k] == requirements[..k];
      if requirement.Identity() !in facts.registry {
        return Failure(CapabilityRejected);
      }
      if requirement.descriptor != facts.registry[requirement.Identity()] {
        return Failure(CapabilityRejected);
      }
      if requirement.Identity() in validated {
        return Failure(CapabilityRejected);
      }
      validated := validated[requirement.Identity() := facts.registry[requirement.Identity()]];
    }
    assert requirements[..|requirements|] == requirements;
    forall capability
      ensures capability in validated <==> HasRequirement(requirements, capability)
    {
      LocksAreOfRequirements(requirements, capability);
    }
    forall i | 0 <= i < |requirements|
      ensures requirements[i].Identity() in validated && validated[requirements[i].Identity()] == requirements[i].descriptor
    {
      LockOf(requirements, i);
    }
    r := Success(validated);
  }

  predicate RequestedAs(requests: seq<Requested>, capability: CapabilityIdentity) {
    exists i | 0 <= i < |requests| :: requests[i].capability == capability
  }

  /** `validate_requirement_mapping`, given that the requests are unique. */
  predicate MappingHolds(request: AdmissionRequest) {
    && |request.requirements| == |request.All()|
    && forall i | 0 <= i < |request.requirements| ::
         RequestedAs(if request.requirements[i].required then request.required else request.optional, request.requirements[i].Identity())
  }

  // ---------------------------------------------------------------- grant sets

  datatype GrantSetParts = GrantSetParts(
    admissionId: string, requestDigest: string, ancestryDigest: string, parties: Parties, policyRevision: string,
    catalog: Catalog, revisions: string, issuedAt: Timestamp, expiresAt: Timestamp,
    grants: seq<Grant>, denials: seq<CapabilityIdentity>)

  datatype GrantSet = GrantSet(parts: GrantSetParts, digest: string)

  predicate UniqueDenials(denials: seq<CapabilityIdentity>) {
    forall i, j | 0 <= i < j < |denials| :: denials[i] != denials[j]
  }

  /** `CapabilityGrantSet::try_new`. */
  predicate PartsOk(parts: GrantSetParts) {
    parts.issuedAt < parts.expiresAt && UniqueGrants(parts.grants) && UniqueDenials(parts.denials)
  }

  /** `effective_grant_narrows`, and `validate_grant_against_locked` besides the identity. */
  predicate GrantNarrows(grant: Grant, descriptor: Descriptor, expiresAt: Timestamp) {
    && grant.modes <= descriptor.modes
    && EffectAtMost(grant.maximumEffect, descriptor.effect)
    && grant.expiresAt <= expiresAt
    && EvidenceAtLeast(grant.evidence, descriptor.evidence)
    && FreshnessAtLeast(grant.freshness, descriptor.freshness)
    && PreconditionsKept(grant.preconditions, descriptor.preconditions)
  }

  function GrantsFor(grants: seq<Grant>, capability: CapabilityIdentity): nat {
    if grants == [] then 0
    else GrantsFor(grants[..|grants| - 1], capability) + if grants[|grants| - 1].capability == capability then 1 else 0
  }

  function DenialsFor(denials: seq<CapabilityIdentity>, capability: CapabilityIdentity): nat {
    if denials == [] then 0
    else DenialsFor(denials[..|denials| - 1], capability) + if denials[|denials| - 1] == capability then 1 else 0
  }

  /** The part of `validate_against` about one grant. */
  predicate GrantMatches(parts: GrantSetParts, request: AdmissionRequest, grant: Grant) {
    var requested := FindRequest(request.All(), grant.capability);
    var resolved := FindRequirement(request.requirements, grant.capability);
    && requested.Some?
    && (forall resource | resource in grant.resources :: WithinSomePrefix(resource, requested.value.ResourceSet()))
    && resolved.Some?
    && GrantNarrows(grant, resolved.value.descriptor, parts.expiresAt)
  }

  /** `CapabilityGrantSet::validate_against`. */
  predicate ValidAgainst(parts: GrantSetParts, request: AdmissionRequest) {
    && parts.parties == request.parties
    && parts.requestDigest == request.digest && parts.ancestryDigest == request.ancestryDigest
    && parts.catalog == request.catalog
    && (forall i | 0 <= i < |request.required| :: GrantsFor(parts.grants, request.required[i].capability) == 1)
    && (forall i | 0 <= i < |request.optional| ::
          GrantsFor(parts.grants, request.optional[i].capability) + DenialsFor(parts.denials, request.optional[i].capability) == 1)
    && (forall i | 0 <= i < |parts.denials| :: RequestedAs(request.optional, parts.denials[i]))
    && forall i | 0 <= i < |parts.grants| :: GrantMatches(parts, request, parts.grants[i])
  }

  function PartsFor(facts: Facts, request: AdmissionRequest, collected: Collected): GrantSetParts {
    GrantSetParts("admission-" + request.digest, request.digest, request.ancestryDigest, request.parties, facts.policyRevision,
                  facts.catalog, facts.revisions, facts.issuedAt, facts.expiresAt, collected.grants, collected.denials)
  }

  /** Everything `admit` checks before it collects. */
  predicate RequestBound(facts: Facts, request: AdmissionRequest) {
    request.catalog == facts.catalog && LocksMatch(facts, request.requirements) && MappingHolds(request)
  }

  /** `AdmissionService::admit`. */
  function Admit(facts: Facts, digestOf: GrantSetParts -> string, request: AdmissionRequest, backend: AuthorizationBackend): Result<GrantSet, AdmissionError> {
    if request.catalog != facts.catalog then Failure(CatalogStale)
    else if !LocksMatch(facts, request.requirements) || !MappingHolds(request) then Failure(CapabilityRejected)
    else if backend.revisions.None? then Failure(BackendFailed)
    else if backend.revisions.value != facts.revisions then Failure(AdmissionDenied)
    else
      match Collect(facts, backend, request.All(), request.requirements)
      case Failure(error) => Failure(error)
      case Success(collected) =>
        var parts := PartsFor(facts, request, collected);
        if !PartsOk(parts) || !ValidAgainst(parts, request) then Failure(GrantSetInvalid)
        else Success(GrantSet(parts, digestOf(parts)))
  }
}
