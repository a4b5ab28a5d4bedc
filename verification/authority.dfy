/**
 The authority algebra of crates/kiteframe-provider/src/authority.rs: `intersect_authority` as the
 exact meet of a requirement with a sequence of authority terms.
 */
module Authority {
  import opened Outcomes
  import opened Text
  import opened ResourceSelectors
  import opened Contract

  datatype AuthorityTerm = Allow(grant: Grant) | Deny(name: string)

  datatype Conflict = MalformedSelector | EvidenceConflict | BlankSelector

  predicate ValidTerms(terms: seq<AuthorityTerm>) {
    forall i | 0 <= i < |terms| && terms[i].Allow? :: terms[i].grant.Valid()
  }

  /** The grants of the Allow terms, in order. */
  function Grants(terms: seq<AuthorityTerm>): (grants: seq<Grant>)
    ensures (forall i | 0 <= i < |terms| :: terms[i].Allow?) ==>
      |grants| == |terms| && forall i | 0 <= i < |terms| :: grants[i] == terms[i].grant
  {
    if terms == [] then []
    else
      var n := |terms| - 1;
      Grants(terms[..n]) + if terms[n].Allow? then [terms[n].grant] else []
  }

  // ---------------------------------------------------------------- the order on grants

  predicate WithinAny(resource: string, allowed: set<string>) {
    exists selector | selector in allowed :: IsSubset(resource, selector)
  }

  predicate AllWithin(resources: set<string>, allowed: set<string>) {
    forall resource | resource in resources :: WithinAny(resource, allowed)
  }

  /** `EffectiveGrantSubset::is_subset_of`. */
  predicate IsSubsetOf(grant: Grant, other: Grant) {
    && grant.capability == other.capability
    && AllWithin(grant.resources, other.resources)
    && grant.modes <= other.modes
    && EffectAtMost(grant.maximumEffect, other.maximumEffect)
    && grant.expiresAt <= other.expiresAt
    && EvidenceAtLeast(grant.evidence, other.evidence)
    && FreshnessAtLeast(grant.freshness, other.freshness)
    && other.preconditions <= grant.preconditions
  }

  /** The same order against a requirement, which sets no expiry. */
  predicate NarrowsRequirement(grant: Grant, requirement: ResolvedRequirement) {
    && grant.capability == requirement.Identity()
    && AllWithin(grant.resources, requirement.resources)
    && grant.modes <= requirement.descriptor.modes
    && EffectAtMost(grant.maximumEffect, requirement.descriptor.effect)
    && EvidenceAtLeast(grant.evidence, requirement.descriptor.evidence)
    && FreshnessAtLeast(grant.freshness, requirement.descriptor.freshness)
    && requirement.descriptor.preconditions <= grant.preconditions
  }

  lemma WithinAnyTransitive(resource: string, middle: set<string>, outer: set<string>)
    requires WithinAny(resource, middle) && AllWithin(middle, outer)
    ensures WithinAny(resource, outer)
  {
    var a :| a in middle && IsSubset(resource, a);
    assert WithinAny(a, outer);
    var b :| b in outer && IsSubset(a, b);
    SubsetTransitive(resource, a, b);
  }

  lemma IsSubsetOfTransitive(a: Grant, b: Grant, c: Grant)
    requires IsSubsetOf(a, b) && IsSubsetOf(b, c)
    ensures IsSubsetOf(a, c)
  {
    forall resource | resource in a.resources ensures WithinAny(resource, c.resources) {
      WithinAnyTransitive(resource, b.resources, c.resources);
    }
  }

  // ---------------------------------------------------------------- the envelope a term narrows

  /** What remains of a requirement after some terms; `evidence` is None once two demands conflict. */
  datatype Envelope = Envelope(
    resources: set<string>,
    modes: set<ExecutionMode>,
    effect: Effect,
    expiresAt: Timestamp,
    evidence: Option<RequiredEvidence>,
    freshness: Freshness,
    preconditions: set<PreconditionDescriptor>)

  function MeetSets(left: set<string>, right: set<string>): set<string> {
    set a, b | a in left && b in right && MeetText(a, b).Some? :: MeetText(a, b).value
  }

  function LesserEffect(left: Effect, right: Effect): Effect {
    if EffectRank(left) <= EffectRank(right) then left else right
  }

  function MinimumBound(left: Option<nat>, right: Option<nat>): Option<nat> {
    match (left, right)
    case (Some(a), Some(b)) => Some(if a <= b then a else b)
    case (Some(a), None) => Some(a)
    case (None, _) => right
  }

  function MeetFreshness(left: Freshness, right: Freshness): Freshness {
    Freshness(
      MinimumBound(left.maxAdmissionAge, right.maxAdmissionAge),
      left.policyRevisionRequired || right.policyRevisionRequired,
      MinimumBound(left.maxInputAge, right.maxInputAge))
  }

  function MeetDemand(left: EvidenceDemand, right: EvidenceDemand): Option<EvidenceDemand> {
    if left.NotRequired? then Some(right)
    else if right.NotRequired? || left == right then Some(left)
    else None
  }

  function MeetEvidence(left: RequiredEvidence, right: RequiredEvidence): Option<RequiredEvidence> {
    match (MeetDemand(left.confirmation, right.confirmation), MeetDemand(left.approval, right.approval), MeetDemand(left.consent, right.consent))
    case (Some(confirmation), Some(approval), Some(consent)) => Some(RequiredEvidence(confirmation, approval, consent))
    case _ => None
  }

  function EnvelopeOf(requirement: ResolvedRequirement): Envelope {
    Envelope(requirement.resources, requirement.descriptor.modes, requirement.descriptor.effect, MAX_U64,
             Some(requirement.descriptor.evidence), requirement.descriptor.freshness, requirement.descriptor.preconditions)
  }

  function Narrow(envelope: Envelope, grant: Grant): Envelope {
    Envelope(
      MeetSets(envelope.resources, grant.resources),
      envelope.modes * grant.modes,
      LesserEffect(envelope.effect, grant.maximumEffect),
      if envelope.expiresAt <= grant.expiresAt then envelope.expiresAt else grant.expiresAt,
      if envelope.evidence.Some? then MeetEvidence(envelope.evidence.value, grant.evidence) else None,
      MeetFreshness(envelope.freshness, grant.freshness),
      envelope.preconditions + grant.preconditions)
  }

  function NarrowAll(envelope: Envelope, grants: seq<Grant>): Envelope {
    if grants == [] then envelope
    else Narrow(NarrowAll(envelope, grants[..|grants| - 1]), grants[|grants| - 1])
  }

  // ---------------------------------------------------------------- intersect_authority

  predicate AllParse(selectors: set<string>) {
    forall selector | selector in selectors :: Parses(selector)
  }

  /** How the resource loop ends: it stops at the first malformed selector or empty intersection. */
  datatype ResourceScan = Narrowed(resources: set<string>) | Emptied | Malformed

  function ScanStep(scan: ResourceScan, right: set<string>): ResourceScan {
    match scan
    case Narrowed(current) =>
      if !AllParse(current) || !AllParse(right) then Malformed
      else if MeetSets(current, right) == {} then Emptied
      else Narrowed(MeetSets(current, right))
    case stopped => stopped
  }

  function ScanResources(resources: set<string>, grants: seq<Grant>): ResourceScan {
    if grants == [] then Narrowed(resources)
    else ScanStep(ScanResources(resources, grants[..|grants| - 1]), grants[|grants| - 1].resources)
  }

  predicate Applicable(requirement: ResolvedRequirement, terms: seq<AuthorityTerm>) {
    && terms != []
    && forall i | 0 <= i < |terms| :: terms[i].Allow? && terms[i].grant.capability == requirement.Identity()
  }

  function Intersection(requirement: ResolvedRequirement, terms: seq<AuthorityTerm>): Result<Option<Grant>, Conflict> {
    if !Applicable(requirement, terms) then Success(None)
    else Combine(requirement, Grants(terms))
  }

  function Combine(requirement: ResolvedRequirement, grants: seq<Grant>): Result<Option<Grant>, Conflict> {
    match ScanResources(requirement.resources, grants)
    case Malformed => Failure(MalformedSelector)
    case Emptied => Success(None)
    case Narrowed(resources) =>
      var envelope := NarrowAll(EnvelopeOf(requirement), grants);
      if envelope.modes == {} then Success(None)
      else if envelope.evidence.None? then Failure(EvidenceConflict)
      else if exists selector | selector in resources :: Blank(selector) then Failure(BlankSelector)
      else Success(Some(GrantWithin(requirement, resources, envelope)))
  }

  function GrantWithin(requirement: ResolvedRequirement, resources: set<string>, envelope: Envelope): Grant
    requires envelope.evidence.Some?
  {
    Grant(requirement.Identity(), resources, envelope.modes, envelope.effect, envelope.expiresAt,
          envelope.evidence.value, envelope.freshness, envelope.preconditions)
  }

  lemma MeetSetsAddLeft(left: set<string>, a: string, right: set<string>)
    ensures MeetSets(left + {a}, right) == MeetSets(left, right) + MeetSets({a}, right)
  {}

  lemma MeetSetsAddRight(a: string, right: set<string>, b: string)
    ensures MeetSets({a}, right + {b})
         == MeetSets({a}, right) + if MeetText(a, b).Some? then {MeetText(a, b).value} else {}
  {}

  /** One pass of the inner loop: the selectors that `a` shares with each of `right`. */
  method IntersectWithEach(a: string, right: set<string>) returns (r: Result<set<string>, Conflict>)
    requires Parses(a)
    ensures r == if AllParse(right) then Success(MeetSets({a}, right)) else Failure(MalformedSelector)
  {
    var found: set<string> := {};
    var todo := right;
    ghost var done: set<string> := {};
    while todo != {}
      invariant done + todo == right && done !! todo
      invariant found == MeetSets({a}, done)
      invariant AllParse(done)
    {
      var b :| b in todo;
      var meet := IntersectResourceSelectors(a, b);
      IntersectIsExact(a, b);
      if meet.Failure? {
        return Failure(MalformedSelector);
      }
      MeetSetsAddRight(a, done, b);
      if meet.value.Some? {
        found := found + {meet.value.value};
      }
      done, todo := done + {b}, todo - {b};
    }
    assert done == right;
    return Success(found);
  }

  method IntersectResourceSets(left: set<string>, right: set<string>) returns (r: Result<set<string>, Conflict>)
    requires left != {}
    ensures r == if AllParse(left) && AllParse(right) then Success(MeetSets(left, right)) else Failure(MalformedSelector)
  {
    var intersections: set<string> := {};
    var todo := left;
    ghost var done: set<string> := {};
    while todo != {}
      invariant done + todo == left && done !! todo
      invariant intersections == MeetSets(done, right)
      invariant AllParse(done) && (done != {} ==> AllParse(right))
    {
      var a :| a in todo;
      var check := IntersectResourceSelectors(a, a);
      IntersectIsExact(a, a);
      if check.Failure? {
        return Failure(MalformedSelector);
      }
      var shared := IntersectWithEach(a, right);
      if shared.Failure? {
        return Failure(MalformedSelector);
      }
      MeetSetsAddLeft(done, a, right);
      intersections := intersections + shared.value;
      done, todo := done + {a}, todo - {a};
    }
    assert done == left;
    return Success(intersections);
  }

  lemma ScanNext(initial: set<string>, grants: seq<Grant>, i: nat)
    requires i < |grants|
    ensures ScanResources(initial, grants[..i + 1]) == ScanStep(ScanResources(initial, grants[..i]), grants[i].resources)
  {
    assert grants[..i + 1][..i] == grants[..i];
  }

  method NarrowResources(initial: set<string>, grants: seq<Grant>) returns (r: ResourceScan)
    requires initial != {}
    ensures r == ScanResources(initial, grants)
  {
    var resources := initial;
    for i := 0 to |grants|
      invariant ScanResources(initial, grants[..i]) == Narrowed(resources)
      invariant resources != {}
    {
      ScanNext(initial, grants, i);
      var next := IntersectResourceSets(resources, grants[i].resources);
      if next.Failure? {
        ScanStops(initial, grants, i + 1);
        return Malformed;
      }
      if next.value == {} {
        ScanStops(initial, grants, i + 1);
        return Emptied;
      }
      resources := next.value;
    }
    assert grants[..|grants|] == grants;
    return Narrowed(resources);
  }

  method NarrowModes(requirement: ResolvedRequirement, grants: seq<Grant>) returns (modes: set<ExecutionMode>)
    ensures modes == NarrowAll(EnvelopeOf(requirement), grants).modes
  {
    modes := requirement.descriptor.modes;
    for i := 0 to |grants|
      invariant modes == NarrowAll(EnvelopeOf(requirement), grants[..i]).modes
    {
      assert grants[..i + 1][..i] == grants[..i];
      modes := modes * grants[i].modes;
    }
    assert grants[..|grants|] == grants;
  }

  method NarrowEffectAndExpiry(requirement: ResolvedRequirement, grants: seq<Grant>) returns (effect: Effect, expiresAt: Timestamp)
    requires grants != []
    ensures effect == NarrowAll(EnvelopeOf(requirement), grants).effect
    ensures expiresAt == NarrowAll(EnvelopeOf(requirement), grants).expiresAt
  {
    effect, expiresAt := requirement.descriptor.effect, grants[0].expiresAt;
    for i := 0 to |grants|
      invariant effect == NarrowAll(EnvelopeOf(requirement), grants[..i]).effect
      invariant expiresAt == if i == 0 then grants[0].expiresAt else NarrowAll(EnvelopeOf(requirement), grants[..i]).expiresAt
    {
      assert grants[..i + 1][..i] == grants[..i];
      effect := LesserEffect(effect, grants[i].maximumEffect);
      expiresAt := if expiresAt <= grants[i].expiresAt then expiresAt else grants[i].expiresAt;
    }
    assert grants[..|grants|] == grants;
  }

  method NarrowEvidence(requirement: ResolvedRequirement, grants: seq<Grant>) returns (r: Option<RequiredEvidence>)
    ensures r == NarrowAll(EnvelopeOf(requirement), grants).evidence
  {
    var evidence := requirement.descriptor.evidence;
    for i := 0 to |grants|
      invariant NarrowAll(EnvelopeOf(requirement), grants[..i]).evidence == Some(evidence)
    {
      assert grants[..i + 1][..i] == grants[..i];
      var met := MeetEvidence(evidence, grants[i].evidence);
      if met.None? {
        ConflictStays(EnvelopeOf(requirement), grants, i + 1);
        return None;
      }
      evidence := met.value;
    }
    assert grants[..|grants|] == grants;
    return Some(evidence);
  }

  method NarrowFreshness(requirement: ResolvedRequirement, grants: seq<Grant>) returns (freshness: Freshness, preconditions: set<PreconditionDescriptor>)
    ensures freshness == NarrowAll(EnvelopeOf(requirement), grants).freshness
    ensures preconditions == NarrowAll(EnvelopeOf(requirement), grants).preconditions
  {
    freshness, preconditions := requirement.descriptor.freshness, requirement.descriptor.preconditions;
    for i := 0 to |grants|
      invariant freshness == NarrowAll(EnvelopeOf(requirement), grants[..i]).freshness
      invariant preconditions == NarrowAll(EnvelopeOf(requirement), grants[..i]).preconditions
    {
      assert grants[..i + 1][..i] == grants[..i];
      freshness := MeetFreshness(freshness, grants[i].freshness);
      preconditions := preconditions + grants[i].preconditions;
    }
    assert grants[..|grants|] == grants;
  }

  method IntersectAuthority(requirement: ResolvedRequirement, terms: seq<AuthorityTerm>) returns (r: Result<Option<Grant>, Conflict>)
    requires requirement.Valid()
    ensures r == Intersection(requirement, terms)
  {
    if terms == [] || exists i :: 0 <= i < |terms| && terms[i].Deny? {
      return Success(None);
    }
    var grants := Grants(terms);
    if exists i :: 0 <= i < |grants| && grants[i].capability != requirement.Identity() {
      assert exists i :: 0 <= i < |terms| && terms[i].grant.capability != requirement.Identity();
      return Success(None);
    }
    assert Applicable(requirement, terms);
    var scan := NarrowResources(requirement.resources, grants);
    if scan.Malformed? {
      return Failure(MalformedSelector);
    }
    if scan.Emptied? {
      return Success(None);
    }
    var modes := NarrowModes(requirement, grants);
    if modes == {} {
      return Success(None);
    }
    var effect, expiresAt := NarrowEffectAndExpiry(requirement, grants);
    var evidence := NarrowEvidence(requirement, grants);
    if evidence.None? {
      return Failure(EvidenceConflict);
    }
    var freshness, preconditions := NarrowFreshness(requirement, grants);
    if exists selector | selector in scan.resources :: Blank(selector) {
      return Failure(BlankSelector);
    }
    return Success(Some(Grant(requirement.Identity(), scan.resources, modes, effect, expiresAt, evidence.value, freshness, preconditions)));
  }

  lemma {:induction false} ScanStops(resources: set<string>, grants: seq<Grant>, k: nat)
    requires k <= |grants| && !ScanResources(resources, grants[..k]).Narrowed?
    ensures ScanResources(resources, grants) == ScanResources(resources, grants[..k])
    decreases |grants|
  {
    if k == |grants| {
      assert grants[..k] == grants;
    } else {
      assert grants[..|grants| - 1][..k] == grants[..k];
      ScanStops(resources, grants[..|grants| - 1], k);
    }
  }

  lemma {:induction false} ConflictStays(base: Envelope, grants: seq<Grant>, k: nat)
    requires k <= |grants| && NarrowAll(base, grants[..k]).evidence.None?
    ensures NarrowAll(base, grants).evidence.None?
    decreases |grants|
  {
    if k == |grants| {
      assert grants[..k] == grants;
    } else {
      assert grants[..|grants| - 1][..k] == grants[..k];
      ConflictStays(base, grants[..|grants| - 1], k);
    }
  }

  // ---------------------------------------------------------------- the exact meet

  /** The grants below an envelope. */
  predicate Below(grant: Grant, envelope: Envelope) {
    && AllWithin(grant.resources, envelope.resources)
    && grant.modes <= envelope.modes
    && EffectAtMost(grant.maximumEffect, envelope.effect)
    && grant.expiresAt <= envelope.expiresAt
    && envelope.evidence.Some? && EvidenceAtLeast(grant.evidence, envelope.evidence.value)
    && FreshnessAtLeast(grant.freshness, envelope.freshness)
    && envelope.preconditions <= grant.preconditions
  }

  lemma WithinMeet(resource: string, left: set<string>, right: set<string>)
    ensures WithinAny(resource, MeetSets(left, right)) <==> WithinAny(resource, left) && WithinAny(resource, right)
  {
    if WithinAny(resource, left) && WithinAny(resource, right) {
      var a :| a in left && IsSubset(resource, a);
      var b :| b in right && IsSubset(resource, b);
      IntersectIsGreatestLowerBound(a, b, resource);
      assert MeetText(a, b).value in MeetSets(left, right);
    }
    if WithinAny(resource, MeetSets(left, right)) {
      var m :| m in MeetSets(left, right) && IsSubset(resource, m);
      var a, b :| a in left && b in right && MeetText(a, b) == Some(m);
      IntersectIsGreatestLowerBound(a, b, resource);
    }
  }

  lemma DemandMeet(effective: EvidenceDemand, left: EvidenceDemand, right: EvidenceDemand)
    ensures DemandAtLeast(effective, left) && DemandAtLeast(effective, right)
      <==> MeetDemand(left, right).Some? && DemandAtLeast(effective, MeetDemand(left, right).value)
  {}

  lemma EvidenceMeet(effective: RequiredEvidence, left: RequiredEvidence, right: RequiredEvidence)
    ensures EvidenceAtLeast(effective, left) && EvidenceAtLeast(effective, right)
      <==> MeetEvidence(left, right).Some? && EvidenceAtLeast(effective, MeetEvidence(left, right).value)
  {
    DemandMeet(effective.confirmation, left.confirmation, right.confirmation);
    DemandMeet(effective.approval, left.approval, right.approval);
    DemandMeet(effective.consent, left.consent, right.consent);
  }

  lemma FreshnessMeet(effective: Freshness, left: Freshness, right: Freshness)
    ensures FreshnessAtLeast(effective, left) && FreshnessAtLeast(effective, right)
      <==> FreshnessAtLeast(effective, MeetFreshness(left, right))
  {}

  lemma BelowNarrow(grant: Grant, envelope: Envelope, other: Grant)
    requires grant.capability == other.capability
    ensures Below(grant, Narrow(envelope, other)) <==> Below(grant, envelope) && IsSubsetOf(grant, other)
  {
    forall resource | resource in grant.resources
      ensures WithinAny(resource, MeetSets(envelope.resources, other.resources))
        <==> WithinAny(resource, envelope.resources) && WithinAny(resource, other.resources)
    {
      WithinMeet(resource, envelope.resources, other.resources);
    }
    if envelope.evidence.Some? {
      EvidenceMeet(grant.evidence, envelope.evidence.value, other.evidence);
    }
    FreshnessMeet(grant.freshness, envelope.freshness, other.freshness);
  }

  predicate BelowAll(grant: Grant, others: seq<Grant>) {
    others == [] || (BelowAll(grant, others[..|others| - 1]) && IsSubsetOf(grant, others[|others| - 1]))
  }

  lemma {:induction false} BelowNarrowAll(grant: Grant, envelope: Envelope, others: seq<Grant>)
    requires forall i | 0 <= i < |others| :: others[i].capability == grant.capability
    ensures Below(grant, NarrowAll(envelope, others)) <==> Below(grant, envelope) && BelowAll(grant, others)
    decreases |others|
  {
    if others != [] {
      var n := |others| - 1;
      BelowNarrowAll(grant, envelope, others[..n]);
      BelowNarrow(grant, NarrowAll(envelope, others[..n]), others[n]);
    }
  }

  lemma {:induction false} BelowAllAt(grant: Grant, others: seq<Grant>, i: nat)
    requires BelowAll(grant, others) && i < |others|
    ensures IsSubsetOf(grant, others[i])
    decreases |others|
  {
    if i < |others| - 1 {
      BelowAllAt(grant, others[..|others| - 1], i);
    }
  }

  lemma {:induction false} BelowEach(grant: Grant, others: seq<Grant>)
    requires forall i | 0 <= i < |others| :: IsSubsetOf(grant, others[i])
    ensures BelowAll(grant, others)
    decreases |others|
  {
    if others != [] {
      var front := others[..|others| - 1];
      forall i | 0 <= i < |front| ensures IsSubsetOf(grant, front[i]) {
        assert front[i] == others[i];
      }
      BelowEach(grant, front);
    }
  }

  predicate AllGrantsParse(grants: seq<Grant>) {
    forall i | 0 <= i < |grants| :: AllParse(grants[i].resources)
  }

  lemma MeetSetsParse(left: set<string>, right: set<string>)
    ensures AllParse(MeetSets(left, right))
  {
    forall m | m in MeetSets(left, right) ensures Parses(m) {
      var a, b :| a in left && b in right && MeetText(a, b) == Some(m);
      IntersectIsExact(a, b);
    }
  }

  lemma {:induction false} ScanOfParsing(requirement: ResolvedRequirement, grants: seq<Grant>)
    requires requirement.Valid() && AllParse(requirement.resources) && AllGrantsParse(grants)
    ensures
      var resources := NarrowAll(EnvelopeOf(requirement), grants).resources;
      && AllParse(resources)
      && ScanResources(requirement.resources, grants) == if resources == {} then Emptied else Narrowed(resources)
    decreases |grants|
  {
    if grants != [] {
      var n := |grants| - 1;
      ScanOfParsing(requirement, grants[..n]);
      MeetSetsParse(NarrowAll(EnvelopeOf(requirement), grants[..n]).resources, grants[n].resources);
    }
  }

  /** Selectors the parser accepts and the selector constructor accepts too. */
  predicate WellFormedRequirement(requirement: ResolvedRequirement) {
    && requirement.Valid()
    && AllParse(requirement.resources)
    && forall selector | selector in requirement.resources :: !Blank(selector)
  }

  lemma MeetIsNotBlank(left: string, right: string)
    requires MeetText(left, right).Some? && !Blank(left) && !Blank(right)
    ensures !Blank(MeetText(left, right).value)
  {
    var m := MeetText(left, right).value;
    IntersectParses(left, right);
    var (l, r) := (Parse(left).value, Parse(right).value);
    ParsedIsWellFormed(left);
    ParsedIsWellFormed(right);
    if |l.separators| == 0 {
      assert m == left || m == right;
    } else {
      var k := |l.separators|;
      var p := Meet(l, r);
      var head := Render(ParsedSelector(p.segments[..k], p.separators[..k - 1]));
      assert m[|head|] == p.separators[k - 1];
    }
  }

  lemma {:induction false} NarrowedIsNotBlank(requirement: ResolvedRequirement, grants: seq<Grant>)
    requires WellFormedRequirement(requirement)
    requires forall i | 0 <= i < |grants| :: grants[i].Valid()
    ensures forall selector | selector in NarrowAll(EnvelopeOf(requirement), grants).resources :: !Blank(selector)
    decreases |grants|
  {
    if grants != [] {
      var n := |grants| - 1;
      NarrowedIsNotBlank(requirement, grants[..n]);
      var (left, right) := (NarrowAll(EnvelopeOf(requirement), grants[..n]).resources, grants[n].resources);
      forall m | m in MeetSets(left, right) ensures !Blank(m) {
        var a, b :| a in left && b in right && MeetText(a, b) == Some(m);
        MeetIsNotBlank(a, b);
      }
    }
  }

  /**
   A valid grant lies below the requirement and every Allow term exactly when the intersection returns a
   grant and it lies below that: the result is the greatest lower bound, and exists when any bound does.
   */
  lemma IntersectionIsGreatestLowerBound(requirement: ResolvedRequirement, terms: seq<AuthorityTerm>, below: Grant)
    requires WellFormedRequirement(requirement) && ValidTerms(terms) && Applicable(requirement, terms) && AllGrantsParse(Grants(terms))
    requires below.Valid() && below.capability == requirement.Identity()
    ensures
      (&& NarrowsRequirement(below, requirement)
       && forall i | 0 <= i < |terms| :: IsSubsetOf(below, terms[i].grant))
      <==>
      (&& Intersection(requirement, terms).Success?
       && Intersection(requirement, terms).value.Some?
       && IsSubsetOf(below, Intersection(requirement, terms).value.value))
  {
    var grants := Grants(terms);
    CombineOfWellFormed(requirement, grants);
    BelowBothIsBelowFold(requirement, terms, below);
    BelowIsNonEmpty(below, NarrowAll(EnvelopeOf(requirement), grants));
  }

  /** The result an envelope stands for when no selector was malformed. */
  function Verdict(requirement: ResolvedRequirement, envelope: Envelope): Result<Option<Grant>, Conflict> {
    if envelope.resources == {} || envelope.modes == {} then Success(None)
    else if envelope.evidence.None? then Failure(EvidenceConflict)
    else if exists selector | selector in envelope.resources :: Blank(selector) then Failure(BlankSelector)
    else Success(Some(GrantWithin(requirement, envelope.resources, envelope)))
  }

  lemma CombineOfParsing(requirement: ResolvedRequirement, grants: seq<Grant>)
    requires requirement.Valid() && AllParse(requirement.resources) && AllGrantsParse(grants)
    ensures Combine(requirement, grants) == Verdict(requirement, NarrowAll(EnvelopeOf(requirement), grants))
  {
    ScanOfParsing(requirement, grants);
  }

  lemma CombineOfWellFormed(requirement: ResolvedRequirement, grants: seq<Grant>)
    requires WellFormedRequirement(requirement) && AllGrantsParse(grants)
    requires forall i | 0 <= i < |grants| :: grants[i].Valid()
    ensures
      var envelope := NarrowAll(EnvelopeOf(requirement), grants);
      Combine(requirement, grants) ==
        if envelope.resources == {} || envelope.modes == {} then Success(None)
        else if envelope.evidence.None? then Failure(EvidenceConflict)
        else Success(Some(GrantWithin(requirement, envelope.resources, envelope)))
  {
    CombineOfParsing(requirement, grants);
    NarrowedIsNotBlank(requirement, grants);
  }

  lemma BelowBothIsBelowFold(requirement: ResolvedRequirement, terms: seq<AuthorityTerm>, below: Grant)
    requires Applicable(requirement, terms) && below.capability == requirement.Identity()
    ensures
      (&& NarrowsRequirement(below, requirement)
       && forall i | 0 <= i < |terms| :: IsSubsetOf(below, terms[i].grant))
      <==> Below(below, NarrowAll(EnvelopeOf(requirement), Grants(terms)))
  {
    var grants := Grants(terms);
    BelowNarrowAll(below, EnvelopeOf(requirement), grants);
    assert NarrowsRequirement(below, requirement) <==> Below(below, EnvelopeOf(requirement));
    if BelowAll(below, grants) {
      forall i | 0 <= i < |terms| ensures IsSubsetOf(below, terms[i].grant) {
        BelowAllAt(below, grants, i);
      }
    }
    if forall i | 0 <= i < |terms| :: IsSubsetOf(below, terms[i].grant) {
      forall i | 0 <= i < |grants| ensures IsSubsetOf(below, grants[i]) {
        assert grants[i] == terms[i].grant;
      }
      BelowEach(below, grants);
    }
  }

  lemma BelowIsNonEmpty(below: Grant, envelope: Envelope)
    requires below.Valid()
    ensures Below(below, envelope) ==> envelope.resources != {} && envelope.modes != {}
  {
    if Below(below, envelope) {
      var resource :| resource in below.resources;
      assert WithinAny(resource, envelope.resources);
    }
  }

  /** Every grant `intersect_authority` returns lies below its requirement and each Allow term, with no hypothesis on selectors. */
  lemma ResultIsBelowEveryTerm(requirement: ResolvedRequirement, terms: seq<AuthorityTerm>)
    requires Intersection(requirement, terms).Success? && Intersection(requirement, terms).value.Some?
    ensures
      var grant := Intersection(requirement, terms).value.value;
      && Applicable(requirement, terms)
      && NarrowsRequirement(grant, requirement)
      && forall i | 0 <= i < |terms| :: IsSubsetOf(grant, terms[i].grant)
  {
    var grant := Intersection(requirement, terms).value.value;
    NarrowedIsFold(requirement, Grants(terms));
    AllWithinItself(grant.resources);
    assert Below(grant, NarrowAll(EnvelopeOf(requirement), Grants(terms)));
    BelowBothIsBelowFold(requirement, terms, grant);
  }

  lemma AllWithinItself(resources: set<string>)
    requires AllParse(resources)
    ensures AllWithin(resources, resources)
  {
    forall resource | resource in resources ensures WithinAny(resource, resources) {
      assert IsSubset(resource, resource);
    }
  }

  /** A scan that ends with resources ends with the folded ones, and past one grant they all parse. */
  lemma {:induction false} NarrowedIsFold(requirement: ResolvedRequirement, grants: seq<Grant>)
    requires ScanResources(requirement.resources, grants).Narrowed?
    ensures ScanResources(requirement.resources, grants).resources == NarrowAll(EnvelopeOf(requirement), grants).resources
    ensures grants != [] ==> AllParse(NarrowAll(EnvelopeOf(requirement), grants).resources)
    decreases |grants|
  {
    if grants != [] {
      var n := |grants| - 1;
      NarrowedIsFold(requirement, grants[..n]);
      MeetSetsParse(NarrowAll(EnvelopeOf(requirement), grants[..n]).resources, grants[n].resources);
    }
  }

  /** One more term can only narrow the result, and never brings a grant into being. */
  lemma AddingATermNarrows(requirement: ResolvedRequirement, terms: seq<AuthorityTerm>, extra: AuthorityTerm)
    requires WellFormedRequirement(requirement) && ValidTerms(terms + [extra]) && AllGrantsParse(Grants(terms + [extra])) && terms != []
    requires Intersection(requirement, terms + [extra]).Success? && Intersection(requirement, terms + [extra]).value.Some?
    ensures Intersection(requirement, terms).Success? && Intersection(requirement, terms).value.Some?
    ensures IsSubsetOf(Intersection(requirement, terms + [extra]).value.value, Intersection(requirement, terms).value.value)
  {
    var more := terms + [extra];
    var grant := Intersection(requirement, more).value.value;
    ResultIsBelowEveryTerm(requirement, more);
    forall i | 0 <= i < |terms| ensures terms[i] == more[i] {}
    assert AllGrantsParse(Grants(terms)) by {
      forall i | 0 <= i < |terms| ensures AllParse(Grants(terms)[i].resources) {
        assert Grants(terms)[i] == Grants(more)[i];
      }
    }
    ResultIsValid(requirement, more);
    IntersectionIsGreatestLowerBound(requirement, terms, grant);
  }

  lemma {:induction false} ScanLeavesSomething(resources: set<string>, grants: seq<Grant>)
    requires resources != {} && ScanResources(resources, grants).Narrowed?
    ensures ScanResources(resources, grants).resources != {}
  {}

  lemma ResultIsValid(requirement: ResolvedRequirement, terms: seq<AuthorityTerm>)
    requires requirement.Valid()
    requires Intersection(requirement, terms).Success? && Intersection(requirement, terms).value.Some?
    ensures Intersection(requirement, terms).value.value.Valid()
  {
    ScanLeavesSomething(requirement.resources, Grants(terms));
  }

  lemma DenotedByMeet(left: set<string>, right: set<string>, resource: string)
    ensures DenotedByAny(MeetSets(left, right), resource) <==> DenotedByAny(left, resource) && DenotedByAny(right, resource)
  {
    if DenotedByAny(left, resource) && DenotedByAny(right, resource) {
      var a :| a in left && Denotes(a, resource);
      var b :| b in right && Denotes(b, resource);
      IntersectIsExact(a, b);
      assert MeetText(a, b).value in MeetSets(left, right);
    }
    if DenotedByAny(MeetSets(left, right), resource) {
      var m :| m in MeetSets(left, right) && Denotes(m, resource);
      var a, b :| a in left && b in right && MeetText(a, b) == Some(m);
      IntersectIsExact(a, b);
    }
  }

  ghost predicate DenotedByAll(grants: seq<Grant>, resource: string) {
    grants == [] || (DenotedByAll(grants[..|grants| - 1], resource) && DenotedByAny(grants[|grants| - 1].resources, resource))
  }

  lemma {:induction false} DenotedByAllAt(grants: seq<Grant>, resource: string, i: nat)
    requires DenotedByAll(grants, resource) && i < |grants|
    ensures DenotedByAny(grants[i].resources, resource)
    decreases |grants|
  {
    if i < |grants| - 1 {
      DenotedByAllAt(grants[..|grants| - 1], resource, i);
    }
  }

  lemma {:induction false} DenotedByEach(grants: seq<Grant>, resource: string)
    requires forall i | 0 <= i < |grants| :: DenotedByAny(grants[i].resources, resource)
    ensures DenotedByAll(grants, resource)
    decreases |grants|
  {
    if grants != [] {
      var front := grants[..|grants| - 1];
      forall i | 0 <= i < |front| ensures DenotedByAny(front[i].resources, resource) {
        assert front[i] == grants[i];
      }
      DenotedByEach(front, resource);
    }
  }

  lemma {:induction false} DenotedByNarrowAll(envelope: Envelope, grants: seq<Grant>, resource: string)
    ensures DenotedByAny(NarrowAll(envelope, grants).resources, resource)
      <==> DenotedByAny(envelope.resources, resource) && DenotedByAll(grants, resource)
    decreases |grants|
  {
    if grants != [] {
      var n := |grants| - 1;
      DenotedByNarrowAll(envelope, grants[..n], resource);
      DenotedByMeet(NarrowAll(envelope, grants[..n]).resources, grants[n].resources, resource);
    }
  }

  /** The resources of a returned grant denote exactly what the requirement and every term allow. */
  lemma ResultDenotesTheIntersection(requirement: ResolvedRequirement, terms: seq<AuthorityTerm>, resource: string)
    requires Intersection(requirement, terms).Success? && Intersection(requirement, terms).value.Some?
    ensures DenotedByAny(Intersection(requirement, terms).value.value.resources, resource)
      <==> DenotedByAny(requirement.resources, resource)
           && forall i | 0 <= i < |terms| :: terms[i].Allow? && DenotedByAny(terms[i].grant.resources, resource)
  {
    var grants := Grants(terms);
    NarrowedIsFold(requirement, grants);
    DenotedByNarrowAll(EnvelopeOf(requirement), grants, resource);
    if DenotedByAll(grants, resource) {
      forall i | 0 <= i < |terms| ensures terms[i].Allow? && DenotedByAny(terms[i].grant.resources, resource) {
        DenotedByAllAt(grants, resource, i);
      }
    }
    if forall i | 0 <= i < |terms| :: terms[i].Allow? && DenotedByAny(terms[i].grant.resources, resource) {
      forall i | 0 <= i < |grants| ensures DenotedByAny(grants[i].resources, resource) {
        assert grants[i] == terms[i].grant;
      }
      DenotedByEach(grants, resource);
    }
  }

  // ---------------------------------------------------------------- the order of the terms

  lemma MeetSetsSwapHalf(left: set<string>, b: set<string>, c: set<string>)
    ensures MeetSets(MeetSets(left, b), c) <= MeetSets(MeetSets(left, c), b)
  {
    forall m | m in MeetSets(MeetSets(left, b), c) ensures m in MeetSets(MeetSets(left, c), b) {
      var xy, z :| xy in MeetSets(left, b) && z in c && MeetText(xy, z) == Some(m);
      var x, y :| x in left && y in b && MeetText(x, y) == Some(xy);
      IntersectSwap(x, y, z);
      assert MeetText(x, z).value in MeetSets(left, c);
    }
  }

  lemma NarrowSwap(envelope: Envelope, g: Grant, h: Grant)
    ensures Narrow(Narrow(envelope, g), h) == Narrow(Narrow(envelope, h), g)
  {
    MeetSetsSwapHalf(envelope.resources, g.resources, h.resources);
    MeetSetsSwapHalf(envelope.resources, h.resources, g.resources);
    var (gh, hg) := (Narrow(Narrow(envelope, g), h), Narrow(Narrow(envelope, h), g));
    assert gh.modes == hg.modes;
    assert gh.evidence == hg.evidence;
  }

  lemma {:induction false} NarrowAllMoveToEnd(envelope: Envelope, front: seq<Grant>, g: Grant, back: seq<Grant>)
    ensures NarrowAll(envelope, front + [g] + back) == NarrowAll(envelope, front + back + [g])
    decreases |back|
  {
    if back == [] {
      assert front + [g] + back == front + back + [g];
    } else {
      var k := |back| - 1;
      NarrowAllMoveToEnd(envelope, front, g, back[..k]);
      var kept := front + back[..k];
      NarrowSwap(NarrowAll(envelope, kept), g, back[k]);
      NarrowAllSnoc(envelope, front + [g] + back[..k], back[k]);
      NarrowAllSnoc(envelope, kept, g);
      NarrowAllSnoc(envelope, kept, back[k]);
      NarrowAllSnoc(envelope, kept + [back[k]], g);
      assert front + [g] + back[..k] + [back[k]] == front + [g] + back;
      assert kept + [back[k]] == front + back;
    }
  }

  lemma NarrowAllSnoc(envelope: Envelope, grants: seq<Grant>, g: Grant)
    ensures NarrowAll(envelope, grants + [g]) == Narrow(NarrowAll(envelope, grants), g)
  {
    assert (grants + [g])[..|grants|] == grants;
  }

  lemma MultisetPermutation<T>(s: seq<T>, t: seq<T>) returns (front: seq<T>, back: seq<T>)
    requires multiset(s) == multiset(t) && s != []
    ensures t == front + [s[|s| - 1]] + back
    ensures multiset(s[..|s| - 1]) == multiset(front + back)
  {
    var x := s[|s| - 1];
    assert x in multiset(t);
    var j :| 0 <= j < |t| && t[j] == x;
    front, back := t[..j], t[j + 1..];
    assert t == front + [x] + back;
    assert s == s[..|s| - 1] + [x];
    assert multiset(s[..|s| - 1] + [x]) == multiset(s[..|s| - 1]) + multiset{x};
    assert multiset(front + [x] + back) == multiset(front + back) + multiset{x};
    assert multiset(s[..|s| - 1]) == multiset(s) - multiset{x};
  }

  lemma {:induction false} NarrowAllPermutes(envelope: Envelope, s: seq<Grant>, t: seq<Grant>)
    requires multiset(s) == multiset(t)
    ensures NarrowAll(envelope, s) == NarrowAll(envelope, t)
    decreases |s|
  {
    if s == [] {
      assert |t| == |multiset(t)| == 0;
    } else {
      var n := |s| - 1;
      var front, back := MultisetPermutation(s, t);
      NarrowAllPermutes(envelope, s[..n], front + back);
      NarrowAllMoveToEnd(envelope, front, s[n], back);
      NarrowAllSnoc(envelope, front + back, s[n]);
    }
  }

  predicate ParsingTerm(term: AuthorityTerm) {
    term.Allow? && AllParse(term.grant.resources)
  }

  /** The terms whose selectors all parse, or the others. */
  function Select(terms: seq<AuthorityTerm>, parsing: bool): (r: seq<AuthorityTerm>)
    ensures forall i | 0 <= i < |r| :: r[i] in terms && ParsingTerm(r[i]) == parsing
  {
    if terms == [] then []
    else Select(terms[..|terms| - 1], parsing)
         + if ParsingTerm(terms[|terms| - 1]) == parsing then [terms[|terms| - 1]] else []
  }

  lemma {:induction false} GrantsConcat(a: seq<AuthorityTerm>, b: seq<AuthorityTerm>)
    ensures Grants(a + b) == Grants(a) + Grants(b)
    decreases |b|
  {
    if b == [] {
      assert a + b == a;
    } else {
      assert (a + b)[..|a + b| - 1] == a + b[..|b| - 1];
      GrantsConcat(a, b[..|b| - 1]);
    }
  }

  lemma SelectSplits(terms: seq<AuthorityTerm>)
    ensures multiset(Select(terms, true)) + multiset(Select(terms, false)) == multiset(terms)
  {
    forall x ensures (multiset(Select(terms, true)) + multiset(Select(terms, false)))[x] == multiset(terms)[x] {
      SelectCount(terms, true, x);
      SelectCount(terms, false, x);
    }
  }

  lemma {:induction false} SelectCount(terms: seq<AuthorityTerm>, parsing: bool, x: AuthorityTerm)
    ensures multiset(Select(terms, parsing))[x] == if ParsingTerm(x) == parsing then multiset(terms)[x] else 0
    decreases |terms|
  {
    if terms != [] {
      var (front, last) := (terms[..|terms| - 1], terms[|terms| - 1]);
      SelectCount(front, parsing, x);
      assert terms == front + [last];
    }
  }

  lemma SelectPermutes(s: seq<AuthorityTerm>, t: seq<AuthorityTerm>, parsing: bool)
    requires multiset(s) == multiset(t)
    ensures multiset(Select(s, parsing)) == multiset(Select(t, parsing))
  {
    forall x ensures multiset(Select(s, parsing))[x] == multiset(Select(t, parsing))[x] {
      SelectCount(s, parsing, x);
      SelectCount(t, parsing, x);
    }
  }

  lemma {:induction false} GrantsCount(terms: seq<AuthorityTerm>, grant: Grant)
    ensures multiset(Grants(terms))[grant] == multiset(terms)[Allow(grant)]
    decreases |terms|
  {
    if terms != [] {
      var (front, last) := (terms[..|terms| - 1], terms[|terms| - 1]);
      GrantsCount(front, grant);
      assert terms == front + [last];
    }
  }

  lemma GrantsPermute(s: seq<AuthorityTerm>, t: seq<AuthorityTerm>)
    requires multiset(s) == multiset(t)
    ensures multiset(Grants(s)) == multiset(Grants(t))
  {
    forall grant ensures multiset(Grants(s))[grant] == multiset(Grants(t))[grant] {
      GrantsCount(s, grant);
      GrantsCount(t, grant);
    }
  }

  /** What the well-formed terms alone leave of the requirement's resources. */
  function ParsingRemainder(requirement: ResolvedRequirement, terms: seq<AuthorityTerm>): set<string> {
    NarrowAll(EnvelopeOf(requirement), Grants(Select(terms, true))).resources
  }

  /** Some term has a malformed selector, and the other terms alone already leave no resource. */
  predicate OrderMatters(requirement: ResolvedRequirement, terms: seq<AuthorityTerm>) {
    && Applicable(requirement, terms)
    && AllParse(requirement.resources)
    && Select(terms, false) != []
    && ParsingRemainder(requirement, terms) == {}
  }

  lemma {:induction false} ScanReachesMalformed(requirement: ResolvedRequirement, terms: seq<AuthorityTerm>)
    requires requirement.Valid() && AllParse(requirement.resources)
    requires forall i | 0 <= i < |terms| :: terms[i].Allow?
    requires Select(terms, false) != [] && ParsingRemainder(requirement, terms) != {}
    ensures ScanResources(requirement.resources, Grants(terms)) == Malformed
    decreases |terms|
  {
    var n := |terms| - 1;
    var front := terms[..n];
    RemainderShrinks(requirement, terms);
    if ParsingTerm(terms[n]) || Select(front, false) != [] {
      ScanReachesMalformed(requirement, front);
      ScanSnoc(requirement.resources, Grants(front), terms[n].grant);
    } else {
      FirstMalformedStops(requirement, front, terms[n]);
    }
  }

  lemma FirstMalformedStops(requirement: ResolvedRequirement, front: seq<AuthorityTerm>, last: AuthorityTerm)
    requires requirement.Valid() && AllParse(requirement.resources)
    requires Select(front, false) == [] && last.Allow? && !ParsingTerm(last)
    requires ParsingRemainder(requirement, front) != {}
    ensures ScanResources(requirement.resources, Grants(front) + [last.grant]) == Malformed
  {
    SelectAll(front);
    ParsingTermsParse(front);
    ScanOfParsing(requirement, Grants(front));
    ScanSnoc(requirement.resources, Grants(front), last.grant);
  }

  lemma ScanSnoc(resources: set<string>, grants: seq<Grant>, last: Grant)
    ensures ScanResources(resources, grants).Malformed? ==> ScanResources(resources, grants + [last]).Malformed?
    ensures ScanResources(resources, grants).Narrowed? && !AllParse(last.resources) ==> ScanResources(resources, grants + [last]).Malformed?
  {
    assert (grants + [last])[..|grants|] == grants;
  }

  lemma ParsingTermsParse(terms: seq<AuthorityTerm>)
    requires forall i | 0 <= i < |terms| :: ParsingTerm(terms[i])
    ensures AllGrantsParse(Grants(terms))
  {
    forall i | 0 <= i < |Grants(terms)| ensures AllParse(Grants(terms)[i].resources) {
      assert ParsingTerm(terms[i]);
    }
  }

  lemma RemainderShrinks(requirement: ResolvedRequirement, terms: seq<AuthorityTerm>)
    requires terms != [] && ParsingRemainder(requirement, terms) != {}
    ensures ParsingRemainder(requirement, terms[..|terms| - 1]) != {}
  {
    var (front, last) := (terms[..|terms| - 1], terms[|terms| - 1]);
    if ParsingTerm(last) {
      GrantsConcat(Select(front, true), [last]);
      assert [last][..0] == [];
      NarrowAllSnoc(EnvelopeOf(requirement), Grants(Select(front, true)), last.grant);
    } else {
      assert Select(terms, true) == Select(front, true);
    }
  }

  lemma {:induction false} SelectAll(terms: seq<AuthorityTerm>)
    requires Select(terms, false) == []
    ensures Select(terms, true) == terms
    ensures forall i | 0 <= i < |terms| :: ParsingTerm(terms[i])
    decreases |terms|
  {
    if terms != [] {
      SelectAll(terms[..|terms| - 1]);
    }
  }

  lemma FirstGrantDecides(requirement: ResolvedRequirement, terms: seq<AuthorityTerm>)
    requires Applicable(requirement, terms)
    requires !AllParse(requirement.resources) || !AllParse(terms[0].grant.resources)
    ensures Intersection(requirement, terms) == Failure(MalformedSelector)
  {
    var grants := Grants(terms);
    assert grants[..1] == [grants[0]] && grants[..1][..0] == [];
    assert ScanResources(requirement.resources, grants[..1]) == Malformed;
    ScanStops(requirement.resources, grants, 1);
  }

  lemma ApplicablePermutes(requirement: ResolvedRequirement, s: seq<AuthorityTerm>, t: seq<AuthorityTerm>)
    requires multiset(s) == multiset(t) && Applicable(requirement, s)
    ensures Applicable(requirement, t)
  {
    forall i | 0 <= i < |t| ensures t[i].Allow? && t[i].grant.capability == requirement.Identity() {
      assert t[i] in multiset(s);
    }
    assert |s| == |multiset(s)| == |multiset(t)| == |t|;
  }

  lemma RemainderPermutes(requirement: ResolvedRequirement, s: seq<AuthorityTerm>, t: seq<AuthorityTerm>)
    requires multiset(s) == multiset(t)
    ensures ParsingRemainder(requirement, s) == ParsingRemainder(requirement, t)
    ensures multiset(Select(s, false)) == multiset(Select(t, false))
  {
    SelectPermutes(s, t, true);
    SelectPermutes(s, t, false);
    GrantsPermute(Select(s, true), Select(t, true));
    NarrowAllPermutes(EnvelopeOf(requirement), Grants(Select(s, true)), Grants(Select(t, true)));
  }

  /** When every selector parses, the result is a function of the folded envelope. */
  lemma ParsingOrderIrrelevant(requirement: ResolvedRequirement, s: seq<AuthorityTerm>, t: seq<AuthorityTerm>)
    requires requirement.Valid() && AllParse(requirement.resources) && multiset(s) == multiset(t)
    requires Applicable(requirement, s) && Applicable(requirement, t)
    requires Select(s, false) == [] && Select(t, false) == []
    ensures Intersection(requirement, s) == Intersection(requirement, t)
  {
    SelectAll(s);
    SelectAll(t);
    GrantsPermute(s, t);
    NarrowAllPermutes(EnvelopeOf(requirement), Grants(s), Grants(t));
    ParsingTermsParse(s);
    ParsingTermsParse(t);
    CombineOfParsing(requirement, Grants(s));
    CombineOfParsing(requirement, Grants(t));
  }

  lemma OrderIrrelevant(requirement: ResolvedRequirement, s: seq<AuthorityTerm>, t: seq<AuthorityTerm>)
    requires requirement.Valid() && multiset(s) == multiset(t) && !OrderMatters(requirement, s)
    ensures Intersection(requirement, s) == Intersection(requirement, t)
  {
    if !Applicable(requirement, s) {
      if Applicable(requirement, t) {
        ApplicablePermutes(requirement, t, s);
      }
    } else {
      ApplicablePermutes(requirement, s, t);
      RemainderPermutes(requirement, s, t);
      if !AllParse(requirement.resources) {
        FirstGrantDecides(requirement, s);
        FirstGrantDecides(requirement, t);
      } else if Select(s, false) == [] {
        assert |Select(t, false)| == |multiset(Select(t, false))| == 0;
        ParsingOrderIrrelevant(requirement, s, t);
      } else {
        assert Select(s, false)[0] in multiset(Select(t, false));
        MalformedWins(requirement, s);
        MalformedWins(requirement, t);
      }
    }
  }

  lemma MalformedWins(requirement: ResolvedRequirement, terms: seq<AuthorityTerm>)
    requires requirement.Valid() && AllParse(requirement.resources) && Applicable(requirement, terms)
    requires Select(terms, false) != [] && ParsingRemainder(requirement, terms) != {}
    ensures Intersection(requirement, terms) == Failure(MalformedSelector)
  {
    ScanReachesMalformed(requirement, terms);
  }

  lemma OrderMattersShows(requirement: ResolvedRequirement, terms: seq<AuthorityTerm>)
    requires requirement.Valid() && OrderMatters(requirement, terms)
    ensures
      var (good, bad) := (Select(terms, true), Select(terms, false));
      && multiset(good + bad) == multiset(terms) == multiset(bad + good)
      && Intersection(requirement, good + bad) == Success(None)
      && Intersection(requirement, bad + good) == Failure(MalformedSelector)
  {
    var (good, bad) := (Select(terms, true), Select(terms, false));
    SelectSplits(terms);
    assert multiset(good + bad) == multiset(terms) && multiset(bad + good) == multiset(terms);
    ApplicablePermutes(requirement, terms, good + bad);
    ApplicablePermutes(requirement, terms, bad + good);
    GrantsConcat(good, bad);
    forall i | 0 <= i < |good| ensures good[i].Allow? && AllParse(Grants(good)[i].resources) {
      assert ParsingTerm(good[i]);
    }
    ScanOfParsing(requirement, Grants(good));
    assert Grants(good + bad)[..|Grants(good)|] == Grants(good);
    ScanStops(requirement.resources, Grants(good + bad), |Grants(good)|);
    FirstGrantDecides(requirement, bad + good);
  }

  /** The order of the terms is irrelevant exactly when no malformed selector hides behind an empty intersection. */
  lemma OrderMattersExactly(requirement: ResolvedRequirement, terms: seq<AuthorityTerm>)
    requires requirement.Valid()
    ensures OrderMatters(requirement, terms)
      <==> exists other :: multiset(other) == multiset(terms) && Intersection(requirement, other) != Intersection(requirement, terms)
  {
    if OrderMatters(requirement, terms) {
      OrderMattersShows(requirement, terms);
      var (good, bad) := (Select(terms, true), Select(terms, false));
      assert Intersection(requirement, good + bad) != Intersection(requirement, terms)
        || Intersection(requirement, bad + good) != Intersection(requirement, terms);
    } else {
      forall other | multiset(other) == multiset(terms) ensures Intersection(requirement, other) == Intersection(requirement, terms) {
        OrderIrrelevant(requirement, terms, other);
      }
    }
  }

  lemma ParsesLetter(c: char)
    requires c == 'a' || c == 'b'
    ensures Parse([c]) == Success(ParsedSelector([[c]], []))
  {
    assert |PLACEHOLDER| > 1;
    assert WellFormed(ParsedSelector([[c]], []));
    ParseIsInverseOfRender([c], ParsedSelector([[c]], []));
  }

  lemma StarredLetterIsMalformed()
    ensures !Parses("x*")
  {
    SplitExtend("", "x*");
    assert "" + "x*" == "x*";
    assert Split("x*").0[0] == "x*";
    assert "x*"[1] == '*';
    assert PartialWildcardSegment(Split("x*").0[0]);
  }

  /** The smallest case: a requirement for `a` met with a term for `b` and a term for the malformed `x*`. */
  lemma OrderMattersForExample(shape: Grant, descriptor: Descriptor)
    requires shape.Valid() && shape.capability == descriptor.identity && descriptor.modes != {}
    ensures
      var requirement := ResolvedRequirement(descriptor, true, {"a"});
      var (b, malformed) := (Allow(shape.(resources := {"b"})), Allow(shape.(resources := {"x*"})));
      && Intersection(requirement, [b, malformed]) == Success(None)
      && Intersection(requirement, [malformed, b]) == Failure(MalformedSelector)
  {
    var requirement := ResolvedRequirement(descriptor, true, {"a"});
    var (b, malformed) := (Allow(shape.(resources := {"b"})), Allow(shape.(resources := {"x*"})));
    ParsesLetter('a');
    ParsesLetter('b');
    StarredLetterIsMalformed();
    FirstGrantDecides(requirement, [malformed, b]);
    var grants := Grants([b, malformed]);
    assert grants[..1] == [b.grant] && grants[..1][..0] == [];
    assert MeetSegment("a", "b").None?;
    assert MeetText("a", "b").None?;
    assert MeetSets({"a"}, {"b"}) == {};
    ScanStops(requirement.resources, grants, 1);
  }
}
