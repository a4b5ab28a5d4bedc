/**
 What the authority algebra answers, stated without its folds: the order on grants is inclusion of what they
 permit and reach, and an intersection gives nothing, a conflict or a grant exactly under the conditions here.
 */
module AuthorityAnswers {
  import opened Outcomes
  import opened Text
  import opened Contract
  import opened ResourceSelectors
  import opened Permissions
  import opened Authority

  // ---------------------------------------------------------------- the order is inclusion

  /** Every selector within one set is within the other. */
  ghost predicate CoversNoMore(resources: set<string>, other: set<string>) {
    forall text: string | WithinAny(text, resources) :: WithinAny(text, other)
  }

  lemma AllWithinExactly(resources: set<string>, other: set<string>)
    requires AllParse(resources)
    ensures AllWithin(resources, other) <==> CoversNoMore(resources, other)
  {
    if AllWithin(resources, other) {
      forall text: string | WithinAny(text, resources)
        ensures WithinAny(text, other)
      {
        WithinAnyTransitive(text, resources, other);
      }
    }
    AllWithinItself(resources);
  }

  /** A grant is a subset of another exactly when it covers and permits no more and keeps all its preconditions. */
  lemma SubsetGrantIsInclusion(grant: Grant, other: Grant)
    requires AllParse(grant.resources) && grant.modes != {} && grant.expiresAt > 0
    ensures IsSubsetOf(grant, other) <==>
            && CoversNoMore(grant.resources, other.resources)
            && PermitsNoMore(grant, other)
            && other.preconditions <= grant.preconditions
  {
    AllWithinExactly(grant.resources, other.resources);
    ComponentsAreInclusion(grant, other);
  }

  /** A grant narrows a requirement exactly when it covers and permits no more than it asks for and keeps all its preconditions. */
  lemma NarrowingRequirementIsInclusion(grant: Grant, requirement: ResolvedRequirement)
    requires AllParse(grant.resources) && grant.modes != {} && grant.expiresAt > 0
    ensures NarrowsRequirement(grant, requirement) <==>
            && CoversNoMore(grant.resources, requirement.resources)
            && PermitsNoMore(grant, Asked(requirement))
            && requirement.descriptor.preconditions <= grant.preconditions
  {
    AllWithinExactly(grant.resources, requirement.resources);
    ComponentsAreInclusion(grant, Asked(requirement));
  }

  // ---------------------------------------------------------------- evidence

  datatype EvidenceField = ConfirmationField | ApprovalField | ConsentField

  function DemandOf(evidence: RequiredEvidence, field: EvidenceField): EvidenceDemand {
    match field
    case ConfirmationField => evidence.confirmation
    case ApprovalField => evidence.approval
    case ConsentField => evidence.consent
  }

  /** Two demands for one kind of evidence that nothing satisfies at once. */
  predicate ClashOn(one: RequiredEvidence, other: RequiredEvidence, field: EvidenceField) {
    var a, b := DemandOf(one, field), DemandOf(other, field);
    a.Required? && b.Required? && a.evidence != b.evidence
  }

  predicate Clash(one: RequiredEvidence, other: RequiredEvidence) {
    exists field: EvidenceField :: ClashOn(one, other, field)
  }

  lemma MeetClashes(one: RequiredEvidence, other: RequiredEvidence)
    ensures MeetEvidence(one, other).None? <==> Clash(one, other)
    ensures MeetEvidence(one, other).Some? ==>
              forall field ::
                DemandOf(MeetEvidence(one, other).value, field) ==
                if DemandOf(one, field).Required? then DemandOf(one, field) else DemandOf(other, field)
  {
    assert MeetDemand(one.confirmation, other.confirmation).None? <==> ClashOn(one, other, ConfirmationField);
    assert MeetDemand(one.approval, other.approval).None? <==> ClashOn(one, other, ApprovalField);
    assert MeetDemand(one.consent, other.consent).None? <==> ClashOn(one, other, ConsentField);
  }

  /** What the requirement, numbered zero, and the grants ask for. */
  function EvidenceAt(requirement: ResolvedRequirement, grants: seq<Grant>, k: nat): RequiredEvidence
    requires k <= |grants|
  {
    if k == 0 then requirement.descriptor.evidence else grants[k - 1].evidence
  }

  ghost predicate SomeClash(requirement: ResolvedRequirement, grants: seq<Grant>) {
    exists i, j, field :: 0 <= i < j <= |grants| && ClashOn(EvidenceAt(requirement, grants, i), EvidenceAt(requirement, grants, j), field)
  }

  /** Some participant makes this demand. */
  ghost predicate Demanded(requirement: ResolvedRequirement, grants: seq<Grant>, field: EvidenceField, demand: EvidenceDemand) {
    exists k :: 0 <= k <= |grants| && DemandOf(EvidenceAt(requirement, grants, k), field) == demand
  }

  ghost predicate Combined(requirement: ResolvedRequirement, grants: seq<Grant>, evidence: RequiredEvidence) {
    forall field: EvidenceField, demand: EvidenceDemand ::
      demand.Required? ==> (DemandOf(evidence, field) == demand <==> Demanded(requirement, grants, field, demand))
  }

  lemma ClashWithLast(requirement: ResolvedRequirement, grants: seq<Grant>, evidence: RequiredEvidence)
    requires grants != [] && Combined(requirement, grants[..|grants| - 1], evidence) && !SomeClash(requirement, grants[..|grants| - 1])
    ensures SomeClash(requirement, grants) <==> Clash(evidence, grants[|grants| - 1].evidence)
  {
    var n := |grants| - 1;
    var earlier, last := grants[..n], grants[n].evidence;
    assert forall k | 0 <= k <= n :: EvidenceAt(requirement, grants, k) == EvidenceAt(requirement, earlier, k);
    assert EvidenceAt(requirement, grants, n + 1) == last;
    if field :| ClashOn(evidence, last, field) {
      assert Demanded(requirement, earlier, field, DemandOf(evidence, field));
      var k :| 0 <= k <= n && DemandOf(EvidenceAt(requirement, earlier, k), field) == DemandOf(evidence, field);
      assert ClashOn(EvidenceAt(requirement, grants, k), EvidenceAt(requirement, grants, n + 1), field);
    }
    forall i, j, field | 0 <= i < j <= n
      ensures !ClashOn(EvidenceAt(requirement, grants, i), EvidenceAt(requirement, grants, j), field)
    {
      assert !ClashOn(EvidenceAt(requirement, earlier, i), EvidenceAt(requirement, earlier, j), field);
    }
    if SomeClash(requirement, grants) {
      var i, j, field :| 0 <= i < j <= |grants| && ClashOn(EvidenceAt(requirement, grants, i), EvidenceAt(requirement, grants, j), field);
      assert j == n + 1;
      assert Demanded(requirement, earlier, field, DemandOf(EvidenceAt(requirement, earlier, i), field));
      assert ClashOn(evidence, last, field);
    }
  }

  lemma CombinedWithLast(requirement: ResolvedRequirement, grants: seq<Grant>, evidence: RequiredEvidence)
    requires grants != [] && Combined(requirement, grants[..|grants| - 1], evidence)
    requires MeetEvidence(evidence, grants[|grants| - 1].evidence).Some?
    ensures Combined(requirement, grants, MeetEvidence(evidence, grants[|grants| - 1].evidence).value)
  {
    var n := |grants| - 1;
    var earlier, last := grants[..n], grants[n].evidence;
    var met := MeetEvidence(evidence, last).value;
    MeetClashes(evidence, last);
    forall field: EvidenceField, demand: EvidenceDemand | demand.Required?
      ensures DemandOf(met, field) == demand <==> Demanded(requirement, grants, field, demand)
    {
      assert !ClashOn(evidence, last, field);
      assert EvidenceAt(requirement, grants, n + 1) == last;
      if Demanded(requirement, earlier, field, demand) {
        var k :| 0 <= k <= n && DemandOf(EvidenceAt(requirement, earlier, k), field) == demand;
        assert DemandOf(EvidenceAt(requirement, grants, k), field) == demand;
      }
      if Demanded(requirement, grants, field, demand) {
        var k :| 0 <= k <= n + 1 && DemandOf(EvidenceAt(requirement, grants, k), field) == demand;
        if k <= n {
          assert DemandOf(EvidenceAt(requirement, earlier, k), field) == demand;
        }
      }
    }
  }

  lemma {:induction false} EvidenceOfFold(requirement: ResolvedRequirement, grants: seq<Grant>)
    ensures
      var evidence := NarrowAll(EnvelopeOf(requirement), grants).evidence;
      if SomeClash(requirement, grants) then evidence.None? else evidence.Some? && Combined(requirement, grants, evidence.value)
    decreases |grants|
  {
    if grants == [] {
      assert EvidenceAt(requirement, grants, 0) == requirement.descriptor.evidence;
      forall field: EvidenceField, demand: EvidenceDemand
        ensures DemandOf(requirement.descriptor.evidence, field) == demand <==> Demanded(requirement, grants, field, demand)
      {
        if DemandOf(requirement.descriptor.evidence, field) == demand {
          assert DemandOf(EvidenceAt(requirement, grants, 0), field) == demand;
        }
      }
    } else {
      var n := |grants| - 1;
      var earlier := grants[..n];
      EvidenceOfFold(requirement, earlier);
      if SomeClash(requirement, earlier) {
        ClashStays(requirement, grants);
      } else {
        var evidence := NarrowAll(EnvelopeOf(requirement), earlier).evidence.value;
        ClashWithLast(requirement, grants, evidence);
        MeetClashes(evidence, grants[n].evidence);
        if !SomeClash(requirement, grants) {
          CombinedWithLast(requirement, grants, evidence);
        }
      }
    }
  }

  lemma ClashStays(requirement: ResolvedRequirement, grants: seq<Grant>)
    requires grants != [] && SomeClash(requirement, grants[..|grants| - 1])
    ensures SomeClash(requirement, grants)
  {
    var earlier := grants[..|grants| - 1];
    var i, j, field :| 0 <= i < j <= |earlier| && ClashOn(EvidenceAt(requirement, earlier, i), EvidenceAt(requirement, earlier, j), field);
    assert ClashOn(EvidenceAt(requirement, grants, i), EvidenceAt(requirement, grants, j), field);
  }

  // ---------------------------------------------------------------- modes and resources

  predicate CommonMode(requirement: ResolvedRequirement, grants: seq<Grant>, mode: ExecutionMode) {
    mode in requirement.descriptor.modes && forall i | 0 <= i < |grants| :: mode in grants[i].modes
  }

  lemma {:induction false} ModesOfFold(requirement: ResolvedRequirement, grants: seq<Grant>, mode: ExecutionMode)
    ensures mode in NarrowAll(EnvelopeOf(requirement), grants).modes <==> CommonMode(requirement, grants, mode)
  {
    if grants != [] {
      ModesOfFold(requirement, grants[..|grants| - 1], mode);
    }
  }

  ghost predicate CommonResource(requirement: ResolvedRequirement, grants: seq<Grant>, resource: string) {
    DenotedByAny(requirement.resources, resource) && forall i | 0 <= i < |grants| :: DenotedByAny(grants[i].resources, resource)
  }

  lemma ResourcesOfFold(requirement: ResolvedRequirement, grants: seq<Grant>, resource: string)
    ensures DenotedByAny(NarrowAll(EnvelopeOf(requirement), grants).resources, resource) <==> CommonResource(requirement, grants, resource)
  {
    DenotedByNarrowAll(EnvelopeOf(requirement), grants, resource);
    if DenotedByAll(grants, resource) {
      forall i | 0 <= i < |grants|
        ensures DenotedByAny(grants[i].resources, resource)
      {
        DenotedByAllAt(grants, resource, i);
      }
    }
    if CommonResource(requirement, grants, resource) {
      DenotedByEach(grants, resource);
    }
  }

  lemma ParsingSelectorsDenote(selectors: set<string>)
    requires AllParse(selectors)
    ensures selectors == {} <==> forall resource :: !DenotedByAny(selectors, resource)
  {
    if selectors != {} {
      var selector :| selector in selectors;
      assert Intersect(selector, selector).Success? && (exists x :: Denotes(selector, x)) by { DenotesSomething(selector); }
      var x :| Denotes(selector, x);
      assert DenotedByAny(selectors, x);
    }
  }

  lemma DenotesSomething(selector: string)
    requires Parses(selector)
    ensures Intersect(selector, selector).Success? && exists x :: Denotes(selector, x)
  {
    SubsetOfItself(selector);
    IntersectIsExact(selector, selector);
    IntersectIsGreatestLowerBound(selector, selector, selector);
    var meet := Intersect(selector, selector).value;
    assert meet.Some?;
    var x :| Denotes(meet.value, x);
    assert Denotes(selector, x);
  }

  lemma SubsetOfItself(selector: string)
    requires Parses(selector)
    ensures IsSubset(selector, selector)
  {
    AllWithinItself({selector});
    assert WithinAny(selector, {selector});
  }

  // ---------------------------------------------------------------- the answers

  /** Terms the intersection considers at all: there are some, all allow, and all speak of this capability. */
  predicate AllAllow(requirement: ResolvedRequirement, terms: seq<AuthorityTerm>) {
    terms != [] && forall i | 0 <= i < |terms| :: terms[i].Allow? && terms[i].grant.capability == requirement.descriptor.identity
  }

  /**
   For well-formed selectors an intersection gives nothing exactly when the terms are none, one denies or speaks
   of another capability, or no resource or no mode is common to all; a conflict exactly when otherwise two
   participants demand different evidence of one kind; and a grant in every other case.
   */
  lemma IntersectionAnswers(requirement: ResolvedRequirement, terms: seq<AuthorityTerm>)
    requires WellFormedRequirement(requirement) && ValidTerms(terms) && AllGrantsParse(Grants(terms))
    ensures
      var answer := Intersection(requirement, terms);
      var grants := Grants(terms);
      var common := (exists resource :: CommonResource(requirement, grants, resource)) && (exists mode :: CommonMode(requirement, grants, mode));
      if !AllAllow(requirement, terms) || !common then answer == Success(None)
      else if SomeClash(requirement, grants) then answer == Failure(EvidenceConflict)
      else answer.Success? && answer.value.Some?
  {
    hide SomeClash, Combined, CommonResource, CommonMode, NarrowAll;
    var grants := Grants(terms);
    if Applicable(requirement, terms) {
      CombineOfWellFormed(requirement, grants);
      ScanOfParsing(requirement, grants);
      var envelope := NarrowAll(EnvelopeOf(requirement), grants);
      ParsingSelectorsDenote(envelope.resources);
      forall resource
        ensures DenotedByAny(envelope.resources, resource) <==> CommonResource(requirement, grants, resource)
      {
        ResourcesOfFold(requirement, grants, resource);
      }
      forall mode
        ensures mode in envelope.modes <==> CommonMode(requirement, grants, mode)
      {
        ModesOfFold(requirement, grants, mode);
      }
      EvidenceOfFold(requirement, grants);
      hide DenotedByAny, ScanResources, Combine;
    }
  }
}
