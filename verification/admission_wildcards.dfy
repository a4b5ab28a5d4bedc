/**
 Which requested selectors can make `admit` fail its own final check: admission narrows by segments, the
 contract crate's `validate_against` by prefixes, and the two agree exactly on selectors whose only wildcard is
 a final `:*`.
 */
module AdmissionWildcards {
  import opened Outcomes
  import opened Text
  import opened Contract
  import opened ResourceSelectors
  import opened Authority
  import opened Admission
  import opened AdmissionService

  /** Every requested resource is this selector. */
  predicate RequestsOnly(request: AdmissionRequest, selector: string) {
    forall i, k | 0 <= i < |request.All()| && 0 <= k < |request.All()[i].resources| :: request.All()[i].resources[k] == selector
  }

  /** A valid request for which everything up to the final check succeeds. */
  predicate Collects(facts: Facts, request: AdmissionRequest, backend: AuthorizationBackend) {
    && ValidFacts(facts) && ValidRequest(request) && RequestBound(facts, request)
    && Collect(facts, backend, request.All(), request.requirements).Success?
  }

  predicate PassesFinalCheck(facts: Facts, request: AdmissionRequest, backend: AuthorizationBackend)
    requires Collects(facts, request, backend)
  {
    ValidAgainst(PartsFor(facts, request, Collect(facts, backend, request.All(), request.requirements).value), request)
  }

  // ---------------------------------------------------------------- a service that grants one instance of a selector

  const READ := CapabilityIdentity("read", "1.0.0")

  const NO_EVIDENCE := RequiredEvidence(NotRequired, NotRequired, NotRequired)

  const READ_DESCRIPTOR := Descriptor(READ, {Immediate}, ReadOnly, NO_EVIDENCE, Freshness(None, false, None), {})

  function ReadGrant(resource: string): Grant {
    Grant(READ, {resource}, {Immediate}, ReadOnly, 1, NO_EVIDENCE, Freshness(None, false, None), {})
  }

  function ReadRequirement(selector: string): ResolvedRequirement {
    ResolvedRequirement(READ_DESCRIPTOR, true, {selector})
  }

  function OnePlane(resource: string): seq<AuthorityTerm> {
    [Allow(ReadGrant(resource))]
  }

  function EveryPlane(resource: string): Planes {
    map[PackageDomain := OnePlane(resource), DeploymentDomain := OnePlane(resource), HumanDomain := OnePlane(resource),
        WorkloadDomain := OnePlane(resource), TaskDomain := OnePlane(resource), SessionDomain := OnePlane(resource)]
  }

  function ReadFacts(resource: string): Facts {
    Facts(Catalog("catalog", "digest"), map[READ := READ_DESCRIPTOR], [EveryPlane(resource)], "revisions", "policy", 0, 1)
  }

  function ReadRequest(selector: string): AdmissionRequest {
    AdmissionRequest(Parties("actor", "agent", "task", "session"), Catalog("catalog", "digest"),
                     [Requested(READ, [selector])], [], [ReadRequirement(selector)], "ancestry", "request")
  }

  function Willing(): AuthorizationBackend {
    AuthorizationBackend(Some("revisions"), (capability, resource) => Some(true))
  }

  lemma EveryPlaneIsTheSame(resource: string, domain: Domain)
    ensures PlaneOf([EveryPlane(resource)], domain) == Some(OnePlane(resource))
  {
    match domain
    case PackageDomain =>
    case DeploymentDomain =>
    case HumanDomain =>
    case WorkloadDomain =>
    case TaskDomain =>
    case SessionDomain =>
  }

  lemma {:induction false} PlanesAgree(resource: string, domains: seq<Domain>)
    ensures CollectTerms([EveryPlane(resource)], domains, READ).Some?
    ensures
      var terms := CollectTerms([EveryPlane(resource)], domains, READ).value;
      (domains != [] ==> terms != []) && forall i | 0 <= i < |terms| :: terms[i] == Allow(ReadGrant(resource))
    decreases |domains|
  {
    if domains != [] {
      var last := |domains| - 1;
      PlanesAgree(resource, domains[..last]);
      EveryPlaneIsTheSame(resource, domains[last]);
      assert TermsFor(OnePlane(resource), READ) == OnePlane(resource) by {
        assert OnePlane(resource)[..0] == [];
      }
    }
  }

  lemma ConcreteIsNotBlank(candidate: string)
    requires IsConcrete(candidate) && (|Parse(candidate).value.separators| == 0 ==> candidate == "x")
    ensures !Blank(candidate)
  {
    ParsedIsWellFormed(candidate);
    var p := Parse(candidate).value;
    if |p.separators| == 0 {
      assert !IsWhitespace(candidate[0]);
    } else {
      var head := Render(Front(p));
      assert candidate[|head|] == p.separators[|p.separators| - 1];
    }
  }

  /** Only the concrete resource itself lies within it. */
  lemma WithinConcrete(resource: string, concrete: string)
    requires IsConcrete(concrete) && WithinAny(resource, {concrete})
    ensures resource == concrete
  {
    ParsedIsWellFormed(resource);
    ParsedIsWellFormed(concrete);
    var p, q := Parse(resource).value, Parse(concrete).value;
    forall i | 0 <= i < |q.segments|
      ensures p.segments[i] == q.segments[i]
    {
      assert q.segments[i] in q.segments;
    }
    assert p.segments == q.segments;
  }

  /** The service grants exactly the one instance. */
  lemma GrantsTheInstance(selector: string, candidate: string)
    requires Parses(selector) && !Blank(selector) && IsConcrete(candidate) && !Blank(candidate) && IsSubset(candidate, selector)
    ensures
      var admitted := AdmitCapability(ReadFacts(candidate), Requested(READ, [selector]), ReadRequirement(selector));
      admitted.Success? && admitted.value.Some? && admitted.value.value.resources == {candidate} && admitted.value.value.capability == READ
  {
    hide CollectTerms, Intersection, IsSubset, Parse, Blank, IsConcrete;
    var requirement, requested := ReadRequirement(selector), Requested(READ, [selector]);
    PlanesAgree(candidate, ALL_DOMAINS);
    var collected := CollectTerms(ReadFacts(candidate).sources, ALL_DOMAINS, READ).value;
    var boundary := Boundary(requirement, requested, 1);
    var terms := collected + [Allow(boundary)];
    assert requested.ResourceSet() == {selector};
    InstanceIsMet(selector, candidate, terms);
  }

  /** The instance is a bound below the requirement and every term. */
  lemma InstanceIsBelow(selector: string, candidate: string)
    requires IsConcrete(candidate) && IsSubset(candidate, selector)
    ensures NarrowsRequirement(ReadGrant(candidate), ReadRequirement(selector))
    ensures IsSubsetOf(ReadGrant(candidate), ReadGrant(candidate)) && IsSubsetOf(ReadGrant(candidate), ReadGrant(selector))
  {
    hide IsSubset, IsConcrete;
    ConcreteIsWithinItself(candidate);
    assert WithinAny(candidate, {selector});
  }

  lemma OnlyTheInstance(grant: Grant, candidate: string)
    requires IsConcrete(candidate) && IsSubsetOf(grant, ReadGrant(candidate)) && IsSubsetOf(ReadGrant(candidate), grant)
    ensures grant.resources == {candidate} && grant.capability == READ
  {
    hide IsSubset, IsConcrete;
    forall resource | resource in grant.resources
      ensures resource == candidate
    {
      WithinConcrete(resource, candidate);
    }
    assert WithinAny(candidate, grant.resources);
  }

  lemma InstanceIsMet(selector: string, candidate: string, terms: seq<AuthorityTerm>)
    requires Parses(selector) && !Blank(selector) && IsConcrete(candidate) && !Blank(candidate) && IsSubset(candidate, selector)
    requires |terms| > 1 && terms[0] == Allow(ReadGrant(candidate))
    requires forall i | 0 <= i < |terms| :: terms[i] == Allow(ReadGrant(candidate)) || terms[i] == Allow(ReadGrant(selector))
    ensures
      var met := Intersection(ReadRequirement(selector), terms);
      met.Success? && met.value.Some? && met.value.value.resources == {candidate} && met.value.value.capability == READ
  {
    var requirement, below := ReadRequirement(selector), ReadGrant(candidate);
    assert Parses(candidate) && below.Valid();
    hide Intersection, IsSubset, Parse, Blank, IsSubsetOf, NarrowsRequirement, Applicable, Grant.Valid, IsConcrete, AllGrantsParse, ValidTerms;
    InstanceIsBelow(selector, candidate);
    TermsParse(selector, candidate, terms);
    IntersectionIsGreatestLowerBound(requirement, terms, below);
    ResultIsBelowEveryTerm(requirement, terms);
    OnlyTheInstance(Intersection(requirement, terms).value.value, candidate);
  }

  lemma ConcreteIsWithinItself(candidate: string)
    requires IsConcrete(candidate)
    ensures IsSubset(candidate, candidate) && WithinAny(candidate, {candidate})
  {
    ConcreteDenotesItself(candidate, candidate);
    DenotesIsMatching(candidate, candidate);
  }

  lemma GrantsOfTerms(one: Grant, other: Grant, terms: seq<AuthorityTerm>)
    requires forall i | 0 <= i < |terms| :: terms[i] == Allow(one) || terms[i] == Allow(other)
    ensures |Grants(terms)| == |terms| && forall i | 0 <= i < |terms| :: Grants(terms)[i] == one || Grants(terms)[i] == other
  {
    assert forall i | 0 <= i < |terms| :: terms[i].Allow?;
  }

  lemma TermsParse(selector: string, candidate: string, terms: seq<AuthorityTerm>)
    requires Parses(selector) && !Blank(selector) && Parses(candidate) && !Blank(candidate) && terms != []
    requires forall i | 0 <= i < |terms| :: terms[i] == Allow(ReadGrant(candidate)) || terms[i] == Allow(ReadGrant(selector))
    ensures Applicable(ReadRequirement(selector), terms) && ValidTerms(terms) && AllGrantsParse(Grants(terms))
    ensures WellFormedRequirement(ReadRequirement(selector))
  {
    hide Parses, Blank, Grants;
    GrantsOfTerms(ReadGrant(candidate), ReadGrant(selector), terms);
  }

  /** Whatever has a wildcard elsewhere: some service and request for it pass everything but the final check. */
  lemma OtherWildcardIsRejected(selector: string) returns (candidate: string)
    requires Parses(selector) && !Blank(selector) && WellFormed(Parse(selector).value) && !FinalWildcardOnly(Parse(selector).value)
    ensures RequestsOnly(ReadRequest(selector), selector)
    ensures Collects(ReadFacts(candidate), ReadRequest(selector), Willing())
    ensures !PassesFinalCheck(ReadFacts(candidate), ReadRequest(selector), Willing())
  {
    candidate := OtherWildcardEscapesPrefix(selector);
    ConcreteIsNotBlank(candidate);
    hide Parse, Blank, AdmitCapability, IsSubset;
    var facts, request := ReadFacts(candidate), ReadRequest(selector);
    GrantsTheInstance(selector, candidate);
    ReadRequestIsValid(selector, candidate);
    var requested := Requested(READ, [selector]);
    assert request.All() == [requested];
    var grant := AdmitCapability(facts, requested, ReadRequirement(selector)).value.value;
    OnlyGrantIsCollected(selector, candidate, grant);
    var collected := Collect(facts, Willing(), request.All(), request.requirements).value;
    FinalCheckDecidesPrefixes(facts, request, Willing());
    assert candidate in collected.grants[0].resources;
    assert requested.ResourceSet() == {selector};
    assert !WithinSomePrefix(candidate, requested.ResourceSet());
  }

  lemma OnlyGrantIsCollected(selector: string, candidate: string, grant: Grant)
    requires AdmitCapability(ReadFacts(candidate), Requested(READ, [selector]), ReadRequirement(selector)) == Success(Some(grant))
    ensures Collect(ReadFacts(candidate), Willing(), ReadRequest(selector).All(), ReadRequest(selector).requirements) == Success(Collected([grant], []))
  {
    hide AdmitCapability;
    var facts, request := ReadFacts(candidate), ReadRequest(selector);
    var requested := Requested(READ, [selector]);
    assert request.All() == [requested];
    assert request.requirements[..0] == [];
    assert Collect(facts, Willing(), request.All(), []) == Success(Collected([], []));
    assert DynamicallyAdmissible(Willing(), READ, [selector]) == Success(true) by {
      assert [selector][1..] == [];
      assert DynamicallyAdmissible(Willing(), READ, []) == Success(true);
    }
    assert [] + [grant] == [grant];
  }

  lemma ReadRequestIsValid(selector: string, candidate: string)
    requires !Blank(selector) && !Blank(candidate)
    ensures ValidFacts(ReadFacts(candidate)) && ValidRequest(ReadRequest(selector)) && RequestBound(ReadFacts(candidate), ReadRequest(selector))
  {
    hide Blank;
    var request := ReadRequest(selector);
    assert request.All() == [Requested(READ, [selector])];
    assert FindRequirement(request.requirements, READ) == Some(ReadRequirement(selector));
    assert WithinPrefix(selector, selector);
    assert RequestedAs(request.required, READ) by { assert request.required[0].capability == READ; }
  }

  /**
   For a selector that parses, the final check can never reject a request for it alone, whatever the service
   and its authority, exactly when its only wildcard is a final `:*`.
   */
  lemma FinalCheckIsSafeExactly(selector: string)
    requires Parses(selector) && !Blank(selector)
    ensures WellFormed(Parse(selector).value)
    ensures FinalWildcardOnly(Parse(selector).value) <==>
            forall facts, request, backend | RequestsOnly(request, selector) && Collects(facts, request, backend) ::
              PassesFinalCheck(facts, request, backend)
  {
    ParsedIsWellFormed(selector);
    if FinalWildcardOnly(Parse(selector).value) {
      forall facts, request, backend | RequestsOnly(request, selector) && Collects(facts, request, backend)
        ensures PassesFinalCheck(facts, request, backend)
      {
        FinalCheckNeverRejects(facts, request, backend);
      }
    } else {
      var candidate := OtherWildcardIsRejected(selector);
    }
  }
}
