/**
 When an operation may be dispatched, field by field: the checks of `validate` and of `InvocationAdmission::try_new`
 (crates/kiteframe-provider/src/invocation.rs) on what an admission persisted.
 */
module PointOfUse {
  import opened Outcomes
  import opened Contract
  import opened ResourceSelectors
  import opened Permissions
  import opened Authority
  import opened Admission
  import opened AdmissionService

  // ---------------------------------------------------------------- narrowing a lock

  /** Everything a locked capability permits until an admission expires. */
  function Unlocked(descriptor: Descriptor, resources: set<string>, expiresAt: Timestamp): Grant {
    Grant(descriptor.identity, resources, descriptor.modes, descriptor.effect, expiresAt,
          descriptor.evidence, descriptor.freshness, descriptor.preconditions)
  }

  /** A grant narrows its lock exactly when it permits nothing the locked capability does not. */
  lemma NarrowingALockIsInclusion(grant: Grant, descriptor: Descriptor, expiresAt: Timestamp)
    requires grant.capability == descriptor.identity && grant.modes != {} && grant.expiresAt > 0
    ensures GrantNarrows(grant, descriptor, expiresAt) <==> PermitsNoMore(grant, Unlocked(descriptor, grant.resources, expiresAt))
  {
    ComponentsAreInclusion(grant, Unlocked(descriptor, grant.resources, expiresAt));
  }

  /** What loads: every grant is for a locked capability and permits nothing that one does not. */
  lemma LoadsExactly(grantSet: GrantSet, locked: map<CapabilityIdentity, Descriptor>)
    requires forall i | 0 <= i < |grantSet.parts.grants| :: grantSet.parts.grants[i].modes != {} && grantSet.parts.grants[i].expiresAt > 0
    ensures Loads(grantSet, locked) <==>
            forall i | 0 <= i < |grantSet.parts.grants| ::
              var grant := grantSet.parts.grants[i];
              && grant.capability in locked && locked[grant.capability].identity == grant.capability
              && PermitsNoMore(grant, Unlocked(locked[grant.capability], grant.resources, grantSet.parts.expiresAt))
  {
    hide GrantNarrows, PermitsNoMore;
    forall i | 0 <= i < |grantSet.parts.grants|
      ensures
        var grant := grantSet.parts.grants[i];
        grant.capability in locked && locked[grant.capability].identity == grant.capability ==>
          (GrantNarrows(grant, locked[grant.capability], grantSet.parts.expiresAt)
           <==> PermitsNoMore(grant, Unlocked(locked[grant.capability], grant.resources, grantSet.parts.expiresAt)))
    {
      var grant := grantSet.parts.grants[i];
      if grant.capability in locked && locked[grant.capability].identity == grant.capability {
        NarrowingALockIsInclusion(grant, locked[grant.capability], grantSet.parts.expiresAt);
      }
    }
  }

  // ---------------------------------------------------------------- dispatching

  /** The admission, the grant and the principals are unexpired, at the start and at dispatch. */
  predicate Unexpired(parts: GrantSetParts, grant: Grant, around: Surroundings) {
    && around.now < parts.expiresAt && around.now < grant.expiresAt
    && around.dispatchNow < parts.expiresAt && around.dispatchNow < grant.expiresAt
    && around.dispatchNow < around.principalsExpireAt
  }

  /** The authorities have not moved since the admission, which is young enough, and no input has to prove its age. */
  predicate StillFresh(parts: GrantSetParts, grant: Grant, around: Surroundings) {
    && around.currentRevisions == parts.revisions
    && grant.freshness.maxInputAge == None
    && match grant.freshness.maxAdmissionAge
       case None => true
       case Some(seconds) => parts.issuedAt <= around.now <= parts.issuedAt + seconds
  }

  /** The backend's decision at the point of use is an allowance, made under the current revisions, in time, for this resource. */
  ghost predicate DecidedFor(resource: string, around: Surroundings) {
    && around.decision.Allowed?
    && around.decision.revisions == around.currentRevisions
    && around.decision.decidedAt <= around.dispatchNow
    && around.dispatchNow < around.decision.expiresAt
    && DenotedByAny(around.decision.resources, resource)
  }

  /** A read runs immediately and an effect deferred; the grant must allow the mode and the effect. */
  predicate AllowsOperation(grant: Grant, descriptor: Descriptor) {
    && MilderThan(descriptor.effect, grant.maximumEffect)
    && (if descriptor.effect.ReadOnly? then Immediate in grant.modes else ExecutionMode.Deferred in grant.modes)
  }

  ghost predicate Dispatchable(parts: GrantSetParts, grant: Grant, descriptor: Descriptor, resource: string, around: Surroundings) {
    && AllowsOperation(grant, descriptor)
    && Unexpired(parts, grant, around)
    && StillFresh(parts, grant, around)
    && DenotedByAny(grant.resources, resource)
    && DecidedFor(resource, around)
    && around.oracles
  }

  lemma DenotedIsWithin(selectors: set<string>, resource: string)
    ensures DenotedByAny(selectors, resource) ==> IsConcrete(resource) && WithinAny(resource, selectors)
    ensures IsConcrete(resource) && WithinAny(resource, selectors) ==> DenotedByAny(selectors, resource)
  {
    if selector :| selector in selectors && Denotes(selector, resource) {
      DenotesIsMatching(selector, resource);
    }
    if IsConcrete(resource) && WithinAny(resource, selectors) {
      var selector :| selector in selectors && IsSubset(resource, selector);
      DenotesIsMatching(selector, resource);
    }
  }

  lemma OperationExactly(grant: Grant, descriptor: Descriptor, expiresAt: Timestamp)
    requires GrantNarrows(grant, descriptor, expiresAt)
    ensures EffectAtMost(descriptor.effect, grant.maximumEffect) && ModePermitted(grant, descriptor, if descriptor.effect.ReadOnly? then Immediate else ExecutionMode.Deferred)
         <==> AllowsOperation(grant, descriptor)
  {
    MilderIsRank(descriptor.effect, grant.maximumEffect);
  }

  lemma FreshExactly(parts: GrantSetParts, grant: Grant, descriptor: Descriptor, around: Surroundings)
    requires GrantNarrows(grant, descriptor, parts.expiresAt)
    ensures FreshEnough(parts, grant, descriptor, around.currentRevisions, around.now) <==> StillFresh(parts, grant, around)
  {}

  lemma DecisionExactly(resource: string, around: Surroundings)
    requires IsConcrete(resource)
    ensures DecisionAllows(around.decision, resource, around) <==> DecidedFor(resource, around)
  {
    hide IsConcrete, WithinAny, DenotedByAny;
    if around.decision.Allowed? {
      DenotedIsWithin(around.decision.resources, resource);
    }
  }

  lemma PermitsExactly(parts: GrantSetParts, grant: Grant, descriptor: Descriptor, resource: string, around: Surroundings)
    requires grant.capability == descriptor.identity && GrantNarrows(grant, descriptor, parts.expiresAt)
    ensures GrantPermits(parts, grant, descriptor, resource, around) <==> Dispatchable(parts, grant, descriptor, resource, around)
  {
    hide GrantNarrows, EffectAtMost, ModePermitted, AllowsOperation, FreshEnough, StillFresh, DecisionAllows, DecidedFor, IsConcrete, WithinAny, DenotedByAny;
    OperationExactly(grant, descriptor, parts.expiresAt);
    FreshExactly(parts, grant, descriptor, around);
    DenotedIsWithin(grant.resources, resource);
    if IsConcrete(resource) {
      DecisionExactly(resource, around);
    }
  }

  lemma OnlyGrantOf(grants: seq<Grant>, i: nat)
    requires UniqueGrants(grants) && i < |grants|
    ensures EffectiveGrant(grants, grants[i].capability) == Some(grants[i])
  {
    if i == 0 {
      NoneOf(grants[1..], grants[0].capability);
    } else {
      assert grants[1..][i - 1] == grants[i];
      OnlyGrantOf(grants[1..], i - 1);
    }
  }

  lemma {:induction false} NoneOf(grants: seq<Grant>, capability: CapabilityIdentity)
    requires forall i | 0 <= i < |grants| :: grants[i].capability != capability
    ensures GrantsFor(grants, capability) == 0
  {
    if grants != [] {
      NoneOf(grants[..|grants| - 1], capability);
    }
  }

  /**
   On what an admission persisted, an operation may be dispatched exactly when the admission has a grant for its
   capability that allows its mode and effect and denotes the resource, nothing has expired or gone stale, and
   the backend's decision allows the resource now.
   */
  lemma DispatchesExactly(facts: Facts, persisted: PersistedAdmission, capability: CapabilityIdentity, resource: string, around: Surroundings)
    requires PersistedOk(facts, persisted)
    ensures MayDispatch(persisted, capability, resource, around) <==>
            exists i | 0 <= i < |persisted.grantSet.parts.grants| ::
              && persisted.grantSet.parts.grants[i].capability == capability && capability in persisted.locked
              && Dispatchable(persisted.grantSet.parts, persisted.grantSet.parts.grants[i], persisted.locked[capability], resource, around)
  {
    hide GrantPermits, Dispatchable, GrantNarrows, WithinEveryPlane;
    var parts := persisted.grantSet.parts;
    forall i | 0 <= i < |parts.grants| && parts.grants[i].capability == capability
      ensures EffectiveGrant(parts.grants, capability) == Some(parts.grants[i]) && capability in persisted.locked
      ensures GrantPermits(parts, parts.grants[i], persisted.locked[capability], resource, around)
         <==> Dispatchable(parts, parts.grants[i], persisted.locked[capability], resource, around)
    {
      OnlyGrantOf(parts.grants, i);
      assert PersistedGrantOk(facts, persisted.locked, parts.grants[i]);
      PermitsExactly(parts, parts.grants[i], persisted.locked[capability], resource, around);
    }
    if MayDispatch(persisted, capability, resource, around) {
      var grant := EffectiveGrant(parts.grants, capability).value;
      var i :| 0 <= i < |parts.grants| && parts.grants[i] == grant;
      assert parts.grants[i].capability == capability;
    }
  }
}
