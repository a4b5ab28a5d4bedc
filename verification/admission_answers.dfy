/**
 What an admission answers, from the backend's answers and the planes' terms alone: what one capability is
 granted, when it is refused, and when the whole call fails, stops or succeeds.
 */
module AdmissionAnswers {
  import opened Outcomes
  import opened Text
  import opened Contract
  import opened ResourceSelectors
  import opened Authority
  import opened Admission
  import opened AdmissionService

  // ---------------------------------------------------------------- the backend's part

  /** The backend allows every one of these resources. */
  predicate AllAdmissible(backend: AuthorizationBackend, capability: CapabilityIdentity, resources: seq<string>) {
    forall k | 0 <= k < |resources| :: backend.listAdmissible(capability, resources[k]) == Some(true)
  }

  /** The first resource that is not allowed, with the answer about it: a refusal, or None for a failed call. */
  predicate StopsAt(backend: AuthorizationBackend, capability: CapabilityIdentity, resources: seq<string>, k: nat, answer: Option<bool>) {
    && k < |resources| && answer != Some(true)
    && (forall i | 0 <= i < k :: backend.listAdmissible(capability, resources[i]) == Some(true))
    && backend.listAdmissible(capability, resources[k]) == answer
  }

  ghost predicate Stops(backend: AuthorizationBackend, capability: CapabilityIdentity, resources: seq<string>, answer: Option<bool>) {
    exists k :: StopsAt(backend, capability, resources, k, answer)
  }

  lemma StopsOnTail(backend: AuthorizationBackend, capability: CapabilityIdentity, resources: seq<string>, answer: Option<bool>)
    requires resources != [] && backend.listAdmissible(capability, resources[0]) == Some(true)
    ensures Stops(backend, capability, resources, answer) <==> Stops(backend, capability, resources[1..], answer)
    ensures AllAdmissible(backend, capability, resources) <==> AllAdmissible(backend, capability, resources[1..])
  {
    var rest := resources[1..];
    if k: nat :| StopsAt(backend, capability, resources, k, answer) {
      assert k > 0;
      assert forall i | 0 <= i < k - 1 :: rest[i] == resources[i + 1];
      assert StopsAt(backend, capability, rest, k - 1, answer);
    }
    if k: nat :| StopsAt(backend, capability, rest, k, answer) {
      assert forall i | 0 < i <= k + 1 :: resources[i] == rest[i - 1];
      assert StopsAt(backend, capability, resources, k + 1, answer);
    }
    if AllAdmissible(backend, capability, rest) {
      assert forall i | 0 < i < |resources| :: resources[i] == rest[i - 1];
    }
  }

  /** The backend's verdict: all allowed, or the first answer that is not an allowance decides. */
  lemma {:induction false} DynamicallyExactly(backend: AuthorizationBackend, capability: CapabilityIdentity, resources: seq<string>)
    ensures
      var r := DynamicallyAdmissible(backend, capability, resources);
      && (AllAdmissible(backend, capability, resources) <==> r == Success(true))
      && (Stops(backend, capability, resources, Some(false)) <==> r == Success(false))
      && (Stops(backend, capability, resources, None) <==> r == Failure(BackendFailed))
      && (r == Success(true) || r == Success(false) || r == Failure(BackendFailed))
  {
    if resources != [] {
      var first := backend.listAdmissible(capability, resources[0]);
      if first == Some(true) {
        DynamicallyExactly(backend, capability, resources[1..]);
        StopsOnTail(backend, capability, resources, Some(false));
        StopsOnTail(backend, capability, resources, None);
      } else {
        assert StopsAt(backend, capability, resources, 0, first);
        assert forall k, answer | StopsAt(backend, capability, resources, k, answer) :: k == 0;
      }
    }
  }

  // ---------------------------------------------------------------- the planes' part

  /** Every term of the planes for this capability is valid and its selectors parse. */
  predicate PlanesParse(facts: Facts, capability: CapabilityIdentity) {
    forall domain: Domain | PlaneOf(facts.sources, domain).Some? ::
      forall term | term in TermsFor(PlaneOf(facts.sources, domain).value, capability) && term.Allow? ::
        term.grant.Valid() && AllParse(term.grant.resources)
  }

  lemma {:induction false} CollectsWhenAllSpeak(sources: seq<Planes>, domains: seq<Domain>, capability: CapabilityIdentity)
    requires forall k | 0 <= k < |domains| ::
               PlaneOf(sources, domains[k]).Some? && TermsFor(PlaneOf(sources, domains[k]).value, capability) != []
    ensures CollectTerms(sources, domains, capability).Some?
    decreases |domains|
  {
    if domains != [] {
      CollectsWhenAllSpeak(sources, domains[..|domains| - 1], capability);
    }
  }

  lemma {:induction false} CollectedIsOfAPlane(sources: seq<Planes>, domains: seq<Domain>, capability: CapabilityIdentity, term: AuthorityTerm)
    requires CollectTerms(sources, domains, capability).Some? && term in CollectTerms(sources, domains, capability).value
    ensures exists k :: 0 <= k < |domains| && IsOfPlane(sources, domains[k], capability, term)
    decreases |domains|
  {
    var last := |domains| - 1;
    if domains != [] {
      if term in CollectTerms(sources, domains[..last], capability).value {
        CollectedIsOfAPlane(sources, domains[..last], capability, term);
        var k :| 0 <= k < last && IsOfPlane(sources, domains[..last][k], capability, term);
        assert IsOfPlane(sources, domains[k], capability, term);
      } else {
        assert IsOfPlane(sources, domains[last], capability, term);
      }
    }
  }

  predicate IsOfPlane(sources: seq<Planes>, domain: Domain, capability: CapabilityIdentity, term: AuthorityTerm) {
    PlaneOf(sources, domain).Some? && term in TermsFor(PlaneOf(sources, domain).value, capability)
  }

  /** A request whose selectors are well formed, for a requirement whose selectors are. */
  predicate WellFormedRequest(requested: Requested, requirement: ResolvedRequirement) {
    && WellFormedRequirement(requirement) && requirement.Identity() == requested.capability
    && requested.resources != []
    && forall k | 0 <= k < |requested.resources| :: Parses(requested.resources[k]) && !Blank(requested.resources[k])
  }

  lemma BoundaryIsValid(facts: Facts, requested: Requested, requirement: ResolvedRequirement)
    requires WellFormedRequest(requested, requirement)
    ensures Boundary(requirement, requested, facts.expiresAt).Valid()
    ensures AllParse(Boundary(requirement, requested, facts.expiresAt).resources)
  {
    assert requested.resources[0] in requested.ResourceSet();
  }

  lemma TermsOfPlanesParse(facts: Facts, capability: CapabilityIdentity, terms: seq<AuthorityTerm>, boundary: AuthorityTerm)
    requires PlanesParse(facts, capability) && CollectTerms(facts.sources, ALL_DOMAINS, capability) == Some(terms)
    requires boundary.Allow? && boundary.grant.Valid() && AllParse(boundary.grant.resources)
    ensures ValidTerms(terms + [boundary]) && AllGrantsParse(Grants(terms + [boundary]))
  {
    var all := terms + [boundary];
    forall i | 0 <= i < |all| && all[i].Allow?
      ensures all[i].grant.Valid() && AllParse(all[i].grant.resources)
    {
      if i < |terms| {
        CollectedIsOfAPlane(facts.sources, ALL_DOMAINS, capability, terms[i]);
        var k :| 0 <= k < |ALL_DOMAINS| && IsOfPlane(facts.sources, ALL_DOMAINS[k], capability, terms[i]);
        assert terms[i] in TermsFor(PlaneOf(facts.sources, ALL_DOMAINS[k]).value, capability);
      }
    }
    GrantsOfParsingTerms(all);
  }

  lemma {:induction false} GrantsOfParsingTerms(terms: seq<AuthorityTerm>)
    requires forall i | 0 <= i < |terms| && terms[i].Allow? :: AllParse(terms[i].grant.resources)
    ensures AllGrantsParse(Grants(terms))
    decreases |terms|
  {
    if terms != [] {
      var earlier := terms[..|terms| - 1];
      assert forall i | 0 <= i < |earlier| && earlier[i].Allow? :: earlier[i] == terms[i];
      GrantsOfParsingTerms(earlier);
    }
  }

  /** The domain's plane is that of the first source that has one. */
  predicate IsPlane(sources: seq<Planes>, domain: Domain, i: nat) {
    i < |sources| && domain in sources[i] && forall k | 0 <= k < i :: domain !in sources[k]
  }

  lemma {:induction false} PlaneIsFirst(sources: seq<Planes>, domain: Domain)
    ensures forall i: nat | IsPlane(sources, domain, i) :: PlaneOf(sources, domain) == Some(sources[i][domain])
    ensures PlaneOf(sources, domain).Some? ==> exists i: nat :: IsPlane(sources, domain, i)
  {
    if sources != [] {
      PlaneIsFirst(sources[1..], domain);
      forall i: nat | IsPlane(sources, domain, i)
        ensures PlaneOf(sources, domain) == Some(sources[i][domain])
      {
        if i > 0 {
          assert IsPlane(sources[1..], domain, i - 1);
        }
      }
      if domain in sources[0] {
        assert IsPlane(sources, domain, 0);
      } else if i: nat :| IsPlane(sources[1..], domain, i) {
        assert IsPlane(sources, domain, i + 1);
      }
    }
  }

  /** What one plane's terms say: some speak of the capability, none denies its name, and each that allows it allows at least this. */
  predicate BoundedBy(terms: seq<AuthorityTerm>, grant: Grant) {
    && (exists i :: 0 <= i < |terms| && SpeaksOf(terms[i], grant.capability))
    && (forall i | 0 <= i < |terms| && terms[i].Deny? :: terms[i].name != grant.capability.name)
    && (forall i | 0 <= i < |terms| && terms[i].Allow? && terms[i].grant.capability == grant.capability :: IsSubsetOf(grant, terms[i].grant))
  }

  predicate SpeaksOf(term: AuthorityTerm, capability: CapabilityIdentity) {
    (term.Allow? && term.grant.capability == capability) || (term.Deny? && term.name == capability.name)
  }

  lemma TermsForExactly(terms: seq<AuthorityTerm>, grant: Grant)
    ensures BoundedBy(terms, grant) <==>
            && TermsFor(terms, grant.capability) != []
            && forall term | term in TermsFor(terms, grant.capability) :: term.Allow? && IsSubsetOf(grant, term.grant)
  {
    hide IsSubsetOf;
    var found := TermsFor(terms, grant.capability);
    if BoundedBy(terms, grant) {
      var i :| 0 <= i < |terms| && SpeaksOf(terms[i], grant.capability);
      assert terms[i] in terms && TermMatches(terms[i], grant.capability);
      forall term | term in found
        ensures term.Allow? && IsSubsetOf(grant, term.grant)
      {
        var k :| 0 <= k < |found| && found[k] == term;
        assert term in terms;
      }
    }
    if found != [] && forall term | term in found :: term.Allow? && IsSubsetOf(grant, term.grant) {
      assert found[0] in terms && TermMatches(found[0], grant.capability);
      var i :| 0 <= i < |terms| && terms[i] == found[0];
      assert SpeaksOf(terms[i], grant.capability);
      assert forall i | 0 <= i < |terms| && TermMatches(terms[i], grant.capability) :: terms[i] in found;
    }
  }

  /** The domain has a plane, and its terms bound the grant. */
  ghost predicate BoundedInDomain(facts: Facts, grant: Grant, domain: Domain) {
    exists i: nat :: IsPlane(facts.sources, domain, i) && BoundedBy(facts.sources[i][domain], grant)
  }

  ghost predicate BoundedByEveryPlane(facts: Facts, grant: Grant) {
    forall domain: Domain :: BoundedInDomain(facts, grant, domain)
  }

  lemma InDomainExactly(facts: Facts, grant: Grant, domain: Domain)
    ensures WithinPlane(facts, grant, domain) <==> BoundedInDomain(facts, grant, domain)
  {
    hide BoundedBy, IsSubsetOf, PlaneOf, TermsFor;
    PlaneIsFirst(facts.sources, domain);
    if PlaneOf(facts.sources, domain).Some? {
      TermsForExactly(PlaneOf(facts.sources, domain).value, grant);
    }
  }

  lemma EveryPlaneExactly(facts: Facts, grant: Grant)
    ensures WithinEveryPlane(facts, grant) <==> BoundedByEveryPlane(facts, grant)
  {
    hide BoundedInDomain, WithinPlane;
    forall domain: Domain
      ensures WithinPlane(facts, grant, domain) <==> BoundedInDomain(facts, grant, domain)
    {
      InDomainExactly(facts, grant, domain);
    }
  }

  /** A grant within everything that bounds an admission: every plane, the requirement, the request, and the session's end. */
  ghost predicate WithinAllBounds(facts: Facts, requested: Requested, requirement: ResolvedRequirement, grant: Grant) {
    && BoundedByEveryPlane(facts, grant)
    && NarrowsRequirement(grant, requirement)
    && (forall resource | resource in grant.resources :: exists k :: 0 <= k < |requested.resources| && IsSubset(resource, requested.resources[k]))
    && grant.expiresAt <= facts.expiresAt
  }

  lemma RequestedExactly(requested: Requested, resource: string)
    ensures WithinAny(resource, requested.ResourceSet()) <==> exists k :: 0 <= k < |requested.resources| && IsSubset(resource, requested.resources[k])
  {
    if WithinAny(resource, requested.ResourceSet()) {
      var selector :| selector in requested.ResourceSet() && IsSubset(resource, selector);
      var k :| 0 <= k < |requested.resources| && requested.resources[k] == selector;
    }
    if k :| 0 <= k < |requested.resources| && IsSubset(resource, requested.resources[k]) {
      assert requested.resources[k] in requested.ResourceSet();
    }
  }

  /** The request boundary adds the requested resources and the session's end to what the requirement asks. */
  lemma BoundsExactly(facts: Facts, requested: Requested, requirement: ResolvedRequirement, grant: Grant)
    ensures WithinAllBounds(facts, requested, requirement, grant) <==>
            && WithinEveryPlane(facts, grant)
            && NarrowsRequirement(grant, requirement)
            && IsSubsetOf(grant, Boundary(requirement, requested, facts.expiresAt))
  {
    EveryPlaneExactly(facts, grant);
    hide WithinEveryPlane, BoundedByEveryPlane, WithinAny;
    forall resource | resource in grant.resources
      ensures WithinAny(resource, requested.ResourceSet()) <==> exists k :: 0 <= k < |requested.resources| && IsSubset(resource, requested.resources[k])
    {
      RequestedExactly(requested, resource);
    }
    hide IsSubset;
  }

  lemma BoundedIsBelowEveryTerm(facts: Facts, requested: Requested, requirement: ResolvedRequirement, grant: Grant, terms: seq<AuthorityTerm>)
    requires grant.capability == requested.capability == requirement.Identity()
    requires WithinAllBounds(facts, requested, requirement, grant)
    requires CollectTerms(facts.sources, ALL_DOMAINS, requested.capability) == Some(terms)
    ensures
      var all := terms + [Allow(Boundary(requirement, requested, facts.expiresAt))];
      Applicable(requirement, all) && forall i | 0 <= i < |all| :: IsSubsetOf(grant, all[i].grant)
  {
    BoundsExactly(facts, requested, requirement, grant);
    hide IsSubsetOf, WithinAllBounds;
    var all := terms + [Allow(Boundary(requirement, requested, facts.expiresAt))];
    forall i | 0 <= i < |all|
      ensures all[i].Allow? && all[i].grant.capability == requirement.Identity() && IsSubsetOf(grant, all[i].grant)
    {
      if i < |terms| {
        CollectedIsOfAPlane(facts.sources, ALL_DOMAINS, requested.capability, terms[i]);
        var k :| 0 <= k < |ALL_DOMAINS| && IsOfPlane(facts.sources, ALL_DOMAINS[k], requested.capability, terms[i]);
        assert WithinPlane(facts, grant, ALL_DOMAINS[k]);
        SubsetHasCapability(grant, terms[i].grant);
      }
    }
  }

  lemma SubsetHasCapability(grant: Grant, other: Grant)
    requires IsSubsetOf(grant, other)
    ensures other.capability == grant.capability
  {}

  /**
   The planes' part of an admission is exact: a valid grant lies within every plane, the requirement and the
   request exactly when a grant is returned and it lies within that one.
   */
  lemma AdmittedGrantIsGreatest(facts: Facts, requested: Requested, requirement: ResolvedRequirement, below: Grant)
    requires WellFormedRequest(requested, requirement) && PlanesParse(facts, requested.capability)
    requires below.Valid() && below.capability == requested.capability
    ensures WithinAllBounds(facts, requested, requirement, below) <==>
            (var admitted := AdmitCapability(facts, requested, requirement);
             admitted.Success? && admitted.value.Some? && IsSubsetOf(below, admitted.value.value))
  {
    hide IsSubsetOf, NarrowsRequirement, Intersection, WithinEveryPlane;
    if WithinAllBounds(facts, requested, requirement, below) {
      BoundsAdmit(facts, requested, requirement, below);
    }
    var admitted := AdmitCapability(facts, requested, requirement);
    if admitted.Success? && admitted.value.Some? && IsSubsetOf(below, admitted.value.value) {
      BelowAdmittedIsBounded(facts, requested, requirement, below);
    }
  }

  lemma EveryPlaneSpeaks(facts: Facts, grant: Grant)
    requires WithinEveryPlane(facts, grant)
    ensures CollectTerms(facts.sources, ALL_DOMAINS, grant.capability).Some?
  {
    forall k | 0 <= k < |ALL_DOMAINS|
      ensures PlaneOf(facts.sources, ALL_DOMAINS[k]).Some? && TermsFor(PlaneOf(facts.sources, ALL_DOMAINS[k]).value, grant.capability) != []
    {
      assert WithinPlane(facts, grant, ALL_DOMAINS[k]);
    }
    CollectsWhenAllSpeak(facts.sources, ALL_DOMAINS, grant.capability);
  }

  lemma BoundsAdmit(facts: Facts, requested: Requested, requirement: ResolvedRequirement, below: Grant)
    requires WellFormedRequest(requested, requirement) && PlanesParse(facts, requested.capability)
    requires below.Valid() && below.capability == requested.capability && WithinAllBounds(facts, requested, requirement, below)
    ensures
      var admitted := AdmitCapability(facts, requested, requirement);
      admitted.Success? && admitted.value.Some? && IsSubsetOf(below, admitted.value.value)
  {
    hide IsSubsetOf, NarrowsRequirement, Intersection, WithinEveryPlane, AllGrantsParse, ValidTerms, Applicable, PlanesParse, WithinAllBounds, CollectTerms, Grants, Grant.Valid;
    BoundsExactly(facts, requested, requirement, below);
    EveryPlaneSpeaks(facts, below);
    var terms := CollectTerms(facts.sources, ALL_DOMAINS, requested.capability).value;
    var boundary := Boundary(requirement, requested, facts.expiresAt);
    BoundaryIsValid(facts, requested, requirement);
    TermsOfPlanesParse(facts, requested.capability, terms, Allow(boundary));
    BoundedIsBelowEveryTerm(facts, requested, requirement, below, terms);
    IntersectionIsGreatestLowerBound(requirement, terms + [Allow(boundary)], below);
  }

  lemma BelowAdmittedIsBounded(facts: Facts, requested: Requested, requirement: ResolvedRequirement, below: Grant)
    requires requirement.Valid()
    requires
      var admitted := AdmitCapability(facts, requested, requirement);
      admitted.Success? && admitted.value.Some? && IsSubsetOf(below, admitted.value.value)
    ensures WithinAllBounds(facts, requested, requirement, below)
  {
    hide AdmitCapability;
    var grant := AdmitCapability(facts, requested, requirement).value.value;
    AdmittedGrantIsWithin(facts, requested, requirement);
    IsSubsetOfTransitive(below, grant, Boundary(requirement, requested, facts.expiresAt));
    assert NarrowsRequirement(below, requirement) by {
      forall resource | resource in below.resources
        ensures WithinAny(resource, requirement.resources)
      {
        WithinAnyTransitive(resource, grant.resources, requirement.resources);
      }
    }
    hide NarrowsRequirement;
    forall domain: Domain
      ensures WithinPlane(facts, below, domain)
    {
      assert WithinPlane(facts, grant, domain);
      forall term | term in TermsFor(PlaneOf(facts.sources, domain).value, below.capability)
        ensures term.Allow? && IsSubsetOf(below, term.grant)
      {
        IsSubsetOfTransitive(below, grant, term.grant);
      }
    }
    BoundsExactly(facts, requested, requirement, below);
  }

  // ---------------------------------------------------------------- one requirement

  /** What becomes of one requested capability: a grant, a refusal, or the end of the call. */
  datatype Ruling = Granted(grant: Grant) | Refused | Broken(error: AdmissionError)

  /** The ruling, from the backend's answers in order and then the planes. */
  ghost predicate RuledAs(facts: Facts, backend: AuthorizationBackend, requested: Requested, requirement: ResolvedRequirement, ruling: Ruling) {
    var planes := AdmitCapability(facts, requested, requirement);
    match ruling
    case Granted(grant) => AllAdmissible(backend, requested.capability, requested.resources) && planes == Success(Some(grant))
    case Refused =>
      || Stops(backend, requested.capability, requested.resources, Some(false))
      || (AllAdmissible(backend, requested.capability, requested.resources) && (planes == Success(None) || planes == Failure(AdmissionDenied)))
    case Broken(error) =>
      || (Stops(backend, requested.capability, requested.resources, None) && error == BackendFailed)
      || (AllAdmissible(backend, requested.capability, requested.resources) && planes == Failure(error) && error != AdmissionDenied)
  }

  /** Every capability has one ruling. */
  lemma RulingOf(facts: Facts, backend: AuthorizationBackend, requested: Requested, requirement: ResolvedRequirement) returns (ruling: Ruling)
    ensures RuledAs(facts, backend, requested, requirement, ruling)
    ensures forall other | RuledAs(facts, backend, requested, requirement, other) :: other == ruling
  {
    DynamicallyExactly(backend, requested.capability, requested.resources);
    hide Stops, AllAdmissible, DynamicallyAdmissible, AdmitCapability;
    var dynamic := DynamicallyAdmissible(backend, requested.capability, requested.resources);
    var planes := AdmitCapability(facts, requested, requirement);
    if dynamic.Failure? {
      ruling := Broken(BackendFailed);
    } else if !dynamic.value {
      ruling := Refused;
    } else {
      ruling := match planes
                case Success(Some(grant)) => Granted(grant)
                case Success(None) => Refused
                case Failure(error) => if error == AdmissionDenied then Refused else Broken(error);
    }
  }

  /** One turn of the loop: a grant is added; a refusal ends the call for a required capability and is noted for an optional one. */
  lemma CollectOneExactly(facts: Facts, backend: AuthorizationBackend, requested: Requested, requirement: ResolvedRequirement, sofar: Collected, ruling: Ruling)
    requires RuledAs(facts, backend, requested, requirement, ruling)
    ensures CollectOne(facts, backend, requested, requirement, sofar) ==
            match ruling
            case Granted(grant) => Success(Collected(sofar.grants + [grant], sofar.denials))
            case Refused =>
              if requirement.required then Failure(AdmissionDenied)
              else Success(Collected(sofar.grants, sofar.denials + [requested.capability]))
            case Broken(error) => Failure(error)
  {
    DynamicallyExactly(backend, requested.capability, requested.resources);
    hide Stops, AllAdmissible, DynamicallyAdmissible, AdmitCapability;
  }

  // ---------------------------------------------------------------- all requirements

  /** The ruling on the requirement's own request. */
  ghost predicate RuledAt(facts: Facts, backend: AuthorizationBackend, requests: seq<Requested>, requirement: ResolvedRequirement, ruling: Ruling) {
    var requested := FindRequest(requests, requirement.Identity());
    requested.Some? && RuledAs(facts, backend, requested.value, requirement, ruling)
  }

  /** The requirement does not end the call. */
  ghost predicate Passes(facts: Facts, backend: AuthorizationBackend, requests: seq<Requested>, requirement: ResolvedRequirement) {
    || (exists grant :: RuledAt(facts, backend, requests, requirement, Granted(grant)))
    || (!requirement.required && RuledAt(facts, backend, requests, requirement, Refused))
  }

  ghost predicate GrantedBy(facts: Facts, backend: AuthorizationBackend, requests: seq<Requested>, requirements: seq<ResolvedRequirement>, grant: Grant) {
    exists i :: 0 <= i < |requirements| && RuledAt(facts, backend, requests, requirements[i], Granted(grant))
  }

  ghost predicate RefusedBy(facts: Facts, backend: AuthorizationBackend, requests: seq<Requested>, requirements: seq<ResolvedRequirement>, capability: CapabilityIdentity) {
    exists i :: 0 <= i < |requirements| && requirements[i].Identity() == capability && RuledAt(facts, backend, requests, requirements[i], Refused)
  }

  /** Exactly the granted grants and the refused capabilities. */
  ghost predicate CollectedAre(facts: Facts, backend: AuthorizationBackend, requests: seq<Requested>, requirements: seq<ResolvedRequirement>, collected: Collected) {
    && (forall grant :: grant in collected.grants <==> GrantedBy(facts, backend, requests, requirements, grant))
    && (forall capability :: capability in collected.denials <==> RefusedBy(facts, backend, requests, requirements, capability))
  }

  lemma OneMoreRuled(facts: Facts, backend: AuthorizationBackend, requests: seq<Requested>, requirements: seq<ResolvedRequirement>)
    requires requirements != []
    ensures forall grant :: GrantedBy(facts, backend, requests, requirements, grant) <==>
              || GrantedBy(facts, backend, requests, requirements[..|requirements| - 1], grant)
              || RuledAt(facts, backend, requests, requirements[|requirements| - 1], Granted(grant))
    ensures forall capability :: RefusedBy(facts, backend, requests, requirements, capability) <==>
              || RefusedBy(facts, backend, requests, requirements[..|requirements| - 1], capability)
              || (requirements[|requirements| - 1].Identity() == capability && RuledAt(facts, backend, requests, requirements[|requirements| - 1], Refused))
  {
    hide RuledAt;
    var last := |requirements| - 1;
    var earlier := requirements[..last];
    forall grant
      ensures GrantedBy(facts, backend, requests, requirements, grant) <==>
              GrantedBy(facts, backend, requests, earlier, grant) || RuledAt(facts, backend, requests, requirements[last], Granted(grant))
    {
      if i :| 0 <= i < last && RuledAt(facts, backend, requests, earlier[i], Granted(grant)) {
        assert RuledAt(facts, backend, requests, requirements[i], Granted(grant));
      }
      if i :| 0 <= i < |requirements| && RuledAt(facts, backend, requests, requirements[i], Granted(grant)) {
        assert i < last ==> earlier[i] == requirements[i];
      }
    }
    forall capability
      ensures RefusedBy(facts, backend, requests, requirements, capability) <==>
              || RefusedBy(facts, backend, requests, earlier, capability)
              || (requirements[last].Identity() == capability && RuledAt(facts, backend, requests, requirements[last], Refused))
    {
      if i :| 0 <= i < last && earlier[i].Identity() == capability && RuledAt(facts, backend, requests, earlier[i], Refused) {
        assert RuledAt(facts, backend, requests, requirements[i], Refused);
      }
      if i :| 0 <= i < |requirements| && requirements[i].Identity() == capability && RuledAt(facts, backend, requests, requirements[i], Refused) {
        assert i < last ==> earlier[i] == requirements[i];
      }
    }
  }

  lemma CollectNext(facts: Facts, backend: AuthorizationBackend, requests: seq<Requested>, requirement: ResolvedRequirement, sofar: Collected)
    returns (ruling: Ruling)
    requires FindRequest(requests, requirement.Identity()).Some?
    ensures RuledAt(facts, backend, requests, requirement, ruling)
    ensures forall other | RuledAt(facts, backend, requests, requirement, other) :: other == ruling
    ensures CollectOne(facts, backend, FindRequest(requests, requirement.Identity()).value, requirement, sofar) ==
            match ruling
            case Granted(grant) => Success(Collected(sofar.grants + [grant], sofar.denials))
            case Refused =>
              if requirement.required then Failure(AdmissionDenied)
              else Success(Collected(sofar.grants, sofar.denials + [requirement.Identity()]))
            case Broken(error) => Failure(error)
  {
    hide RuledAs, CollectOne;
    var requested := FindRequest(requests, requirement.Identity()).value;
    ruling := RulingOf(facts, backend, requested, requirement);
    CollectOneExactly(facts, backend, requested, requirement, sofar, ruling);
  }

  /** The loop succeeds exactly when no requirement ends the call, and then has collected exactly what was granted and refused. */
  lemma {:induction false} CollectExactly(facts: Facts, backend: AuthorizationBackend, requests: seq<Requested>, requirements: seq<ResolvedRequirement>)
    ensures
      var r := Collect(facts, backend, requests, requirements);
      && (r.Success? <==> forall i | 0 <= i < |requirements| :: Passes(facts, backend, requests, requirements[i]))
      && (r.Success? ==> CollectedAre(facts, backend, requests, requirements, r.value))
    decreases |requirements|
  {
    hide RuledAt, CollectOne;
    if requirements != [] {
      var last := |requirements| - 1;
      var earlier := requirements[..last];
      CollectExactly(facts, backend, requests, earlier);
      OneMoreRuled(facts, backend, requests, requirements);
      hide GrantedBy, RefusedBy;
      assert forall i | 0 <= i < last :: earlier[i] == requirements[i];
      var before := Collect(facts, backend, requests, earlier);
      if FindRequest(requests, requirements[last].Identity()).None? {
        NotFoundNeverPasses(facts, backend, requests, requirements[last]);
      } else if before.Success? {
        var ruling := CollectNext(facts, backend, requests, requirements[last], before.value);
        assert Passes(facts, backend, requests, requirements[last]) <==>
               ruling.Granted? || (ruling.Refused? && !requirements[last].required);
      }
    }
  }

  lemma NotFoundNeverPasses(facts: Facts, backend: AuthorizationBackend, requests: seq<Requested>, requirement: ResolvedRequirement)
    requires FindRequest(requests, requirement.Identity()).None?
    ensures !Passes(facts, backend, requests, requirement)
  {}

  /** Why a requirement ends the call. */
  ghost predicate EndsWith(facts: Facts, backend: AuthorizationBackend, requests: seq<Requested>, requirement: ResolvedRequirement, error: AdmissionError) {
    || (FindRequest(requests, requirement.Identity()).None? && error == CapabilityRejected)
    || (requirement.required && RuledAt(facts, backend, requests, requirement, Refused) && error == AdmissionDenied)
    || RuledAt(facts, backend, requests, requirement, Broken(error))
  }

  /** When the loop fails, the first requirement that ends the call says why. */
  lemma CollectFailsAt(facts: Facts, backend: AuthorizationBackend, requests: seq<Requested>, requirements: seq<ResolvedRequirement>, k: nat, error: AdmissionError)
    requires k < |requirements| && forall i | 0 <= i < k :: Passes(facts, backend, requests, requirements[i])
    requires EndsWith(facts, backend, requests, requirements[k], error)
    ensures Collect(facts, backend, requests, requirements) == Failure(error)
  {
    var upto := requirements[..k + 1];
    assert upto[..k] == requirements[..k] && upto[k] == requirements[k];
    CollectExactly(facts, backend, requests, requirements[..k]);
    var before := Collect(facts, backend, requests, requirements[..k]);
    hide RuledAt, CollectOne, Passes;
    if FindRequest(requests, requirements[k].Identity()).Some? {
      var ruling := CollectNext(facts, backend, requests, requirements[k], before.value);
    } else {
      NotFoundIsNotRuled(facts, backend, requests, requirements[k]);
    }
    assert Collect(facts, backend, requests, upto) == Failure(error);
    CollectStops(facts, backend, requests, requirements, k + 1);
  }

  lemma NotFoundIsNotRuled(facts: Facts, backend: AuthorizationBackend, requests: seq<Requested>, requirement: ResolvedRequirement)
    requires FindRequest(requests, requirement.Identity()).None?
    ensures forall ruling :: !RuledAt(facts, backend, requests, requirement, ruling)
  {}

  // ---------------------------------------------------------------- the whole call

  /** Every requirement is for a registered capability, exactly as registered, and for one request of its own requiredness. */
  ghost predicate Bound(facts: Facts, request: AdmissionRequest) {
    && (forall i | 0 <= i < |request.requirements| ::
          var descriptor := request.requirements[i].descriptor;
          descriptor.identity in facts.registry && facts.registry[descriptor.identity] == descriptor)
    && (forall i, j | 0 <= i < j < |request.requirements| :: request.requirements[i].descriptor.identity != request.requirements[j].descriptor.identity)
    && |request.requirements| == |request.required| + |request.optional|
    && (forall i | 0 <= i < |request.requirements| ::
          RequestedAs(if request.requirements[i].required then request.required else request.optional, request.requirements[i].descriptor.identity))
  }

  /** What `admit` answers before it asks about any capability, in order. */
  lemma AdmitChecksFirst(facts: Facts, digestOf: GrantSetParts -> string, request: AdmissionRequest, backend: AuthorizationBackend)
    ensures
      var r := Admit(facts, digestOf, request, backend);
      if request.catalog != facts.catalog then r == Failure(CatalogStale)
      else if !Bound(facts, request) then r == Failure(CapabilityRejected)
      else if backend.revisions == None then r == Failure(BackendFailed)
      else if backend.revisions != Some(facts.revisions) then r == Failure(AdmissionDenied)
      else
        var collected := Collect(facts, backend, request.All(), request.requirements);
        && (collected.Failure? ==> r == Failure(collected.error))
        && (r.Success? ==> collected.Success?)
  {
    hide Collect, ValidAgainst, PartsOk;
  }

  /**
   The whole call succeeds exactly when the request is bound to the catalog and the registry, the revisions are
   current, no requirement ends it, and what was granted lies under the requested prefixes.
   */
  lemma AdmitSucceedsExactly(facts: Facts, digestOf: GrantSetParts -> string, request: AdmissionRequest, backend: AuthorizationBackend)
    requires ValidFacts(facts) && ValidRequest(request)
    ensures Admit(facts, digestOf, request, backend).Success? <==>
            && request.catalog == facts.catalog && Bound(facts, request) && backend.revisions == Some(facts.revisions)
            && (forall i | 0 <= i < |request.requirements| :: Passes(facts, backend, request.All(), request.requirements[i]))
            && (var collected := Collect(facts, backend, request.All(), request.requirements);
                collected.Success? && GrantsWithinPrefixes(request, collected.value.grants))
  {
    hide ValidFacts, ValidRequest, Collect, ValidAgainst, PartsOk, Passes, GrantsWithinPrefixes;
    CollectExactly(facts, backend, request.All(), request.requirements);
    if RequestBound(facts, request) && Collect(facts, backend, request.All(), request.requirements).Success? {
      FinalCheckDecidesPrefixes(facts, request, backend);
    }
  }

  /** What is issued says whom it is for, what it answers, under which catalog and revisions, and for how long. */
  lemma IssuedFor(facts: Facts, digestOf: GrantSetParts -> string, request: AdmissionRequest, backend: AuthorizationBackend)
    requires Admit(facts, digestOf, request, backend).Success?
    ensures
      var issued := Admit(facts, digestOf, request, backend).value;
      && issued.digest == digestOf(issued.parts)
      && issued.parts.admissionId == "admission-" + request.digest && issued.parts.requestDigest == request.digest
      && issued.parts.ancestryDigest == request.ancestryDigest && issued.parts.parties == request.parties
      && issued.parts.catalog == request.catalog == facts.catalog
      && issued.parts.revisions == facts.revisions && backend.revisions == Some(issued.parts.revisions)
      && issued.parts.policyRevision == facts.policyRevision
      && issued.parts.issuedAt == facts.issuedAt && issued.parts.expiresAt == facts.expiresAt
  {
    hide Collect, ValidAgainst, PartsOk;
  }

  /** A capability is granted or denied exactly as the rulings say. */
  lemma AdmittedExactly(facts: Facts, digestOf: GrantSetParts -> string, request: AdmissionRequest, backend: AuthorizationBackend)
    requires Admit(facts, digestOf, request, backend).Success?
    ensures
      var parts := Admit(facts, digestOf, request, backend).value.parts;
      CollectedAre(facts, backend, request.All(), request.requirements, Collected(parts.grants, parts.denials))
  {
    hide Collect, CollectedAre, ValidAgainst, PartsOk;
    AdmitChecksFirst(facts, digestOf, request, backend);
    CollectExactly(facts, backend, request.All(), request.requirements);
  }

  lemma RulingHasCapability(facts: Facts, backend: AuthorizationBackend, requests: seq<Requested>, requirement: ResolvedRequirement, grant: Grant)
    requires requirement.Valid() && RuledAt(facts, backend, requests, requirement, Granted(grant))
    ensures grant.capability == requirement.Identity()
  {
    AdmittedGrantIsWithin(facts, FindRequest(requests, requirement.Identity()).value, requirement);
  }

  /** Nothing is granted for which the backend did not allow every requested resource. */
  lemma GrantedOnlyWhatTheBackendAllows(facts: Facts, digestOf: GrantSetParts -> string, request: AdmissionRequest, backend: AuthorizationBackend, i: nat, k: nat)
    requires ValidRequest(request) && Admit(facts, digestOf, request, backend).Success?
    requires
      var grants := Admit(facts, digestOf, request, backend).value.parts.grants;
      i < |request.All()| && k < |request.All()[i].resources|
      && exists g :: 0 <= g < |grants| && grants[g].capability == request.All()[i].capability
    ensures backend.listAdmissible(request.All()[i].capability, request.All()[i].resources[k]) == Some(true)
  {
    hide Admit, RuledAs;
    AdmittedExactly(facts, digestOf, request, backend);
    var grants := Admit(facts, digestOf, request, backend).value.parts.grants;
    var g :| 0 <= g < |grants| && grants[g].capability == request.All()[i].capability;
    assert grants[g] in grants;
    assert GrantedBy(facts, backend, request.All(), request.requirements, grants[g]);
    var n :| 0 <= n < |request.requirements| && RuledAt(facts, backend, request.All(), request.requirements[n], Granted(grants[g]));
    RulingHasCapability(facts, backend, request.All(), request.requirements[n], grants[g]);
    var requested := FindRequest(request.All(), request.requirements[n].Identity()).value;
    RequestIsFound(request.All(), i, requested);
    GrantedIsAdmissible(facts, backend, requested, request.requirements[n], grants[g]);
  }

  lemma RequestIsFound(requests: seq<Requested>, i: nat, requested: Requested)
    requires UniqueRequests(requests) && i < |requests| && requested in requests && requested.capability == requests[i].capability
    ensures requested == requests[i]
  {}

  lemma GrantedIsAdmissible(facts: Facts, backend: AuthorizationBackend, requested: Requested, requirement: ResolvedRequirement, grant: Grant)
    requires RuledAs(facts, backend, requested, requirement, Granted(grant))
    ensures AllAdmissible(backend, requested.capability, requested.resources)
  {}

  /** An optional capability the backend refuses is denied. */
  lemma RefusedOptionalIsDenied(facts: Facts, digestOf: GrantSetParts -> string, request: AdmissionRequest, backend: AuthorizationBackend, n: nat)
    requires Admit(facts, digestOf, request, backend).Success? && n < |request.requirements|
    requires
      var requested := FindRequest(request.All(), request.requirements[n].Identity());
      requested.Some? && Stops(backend, requested.value.capability, requested.value.resources, Some(false))
    ensures !request.requirements[n].required
    ensures request.requirements[n].Identity() in Admit(facts, digestOf, request, backend).value.parts.denials
  {
    hide Admit;
    var capability := request.requirements[n].Identity();
    assert RuledAt(facts, backend, request.All(), request.requirements[n], Refused);
    AdmittedExactly(facts, digestOf, request, backend);
    assert RefusedBy(facts, backend, request.All(), request.requirements, capability);
    hide RuledAs;
    if request.requirements[n].required {
      RequiredRefusalFails(facts, digestOf, request, backend, n);
    }
  }

  lemma RequiredRefusalFails(facts: Facts, digestOf: GrantSetParts -> string, request: AdmissionRequest, backend: AuthorizationBackend, n: nat)
    requires n < |request.requirements| && request.requirements[n].required
    requires RuledAt(facts, backend, request.All(), request.requirements[n], Refused)
    ensures Admit(facts, digestOf, request, backend).Failure?
  {
    var requirement := request.requirements[n];
    var ruling := RulingOf(facts, backend, FindRequest(request.All(), requirement.Identity()).value, requirement);
    hide RuledAs, Admit;
    assert !Passes(facts, backend, request.All(), requirement);
    CollectExactly(facts, backend, request.All(), request.requirements);
    AdmitChecksFirst(facts, digestOf, request, backend);
  }

  /** A required capability the backend refuses fails the call with the denial, if nothing before it ended the call. */
  lemma RefusedRequiredFailsTheCall(facts: Facts, digestOf: GrantSetParts -> string, request: AdmissionRequest, backend: AuthorizationBackend, n: nat)
    requires request.catalog == facts.catalog && Bound(facts, request) && backend.revisions == Some(facts.revisions)
    requires n < |request.requirements| && request.requirements[n].required
    requires forall i | 0 <= i < n :: Passes(facts, backend, request.All(), request.requirements[i])
    requires
      var requested := FindRequest(request.All(), request.requirements[n].Identity());
      requested.Some? && Stops(backend, requested.value.capability, requested.value.resources, Some(false))
    ensures Admit(facts, digestOf, request, backend) == Failure(AdmissionDenied)
  {
    assert RuledAt(facts, backend, request.All(), request.requirements[n], Refused);
    hide Admit, RuledAt, Bound;
    CollectFailsAt(facts, backend, request.All(), request.requirements, n, AdmissionDenied);
    AdmitChecksFirst(facts, digestOf, request, backend);
  }
}
