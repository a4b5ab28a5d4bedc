/**
 Delegation narrowing of python/kiteframe-deepagents (delegation.py, adapter.py): one child admission against its
 parent, and the recursive preparation of a declared tree of child agents.

 Type checks, deep copies and the component registry are outside the model; the native grant-set check that
 `bind_child_admission` makes is a parameter.
 */
module Delegation {
  import opened Outcomes
  import opened Contract
  import opened ResourceSelectors

  // ---------------------------------------------------------------- the narrowing order

  /** `_resources_narrow`. */
  predicate ResourcesNarrow(effective: set<string>, allowed: set<string>) {
    effective != {} && forall selector | selector in effective :: WithinSomePrefix(selector, allowed)
  }

  /** `_grant_narrows_grant`. */
  predicate NarrowsGrant(effective: Grant, allowed: Grant) {
    && effective.capability == allowed.capability
    && ResourcesNarrow(effective.resources, allowed.resources)
    && effective.modes <= allowed.modes
    && EffectAtMost(effective.maximumEffect, allowed.maximumEffect)
    && effective.expiresAt <= allowed.expiresAt
    && FreshnessAtLeast(effective.freshness, allowed.freshness)
    && EvidenceAtLeast(effective.evidence, allowed.evidence)
    && PreconditionsKept(effective.preconditions, allowed.preconditions)
  }

  /** `_grant_narrows_requirement`. */
  predicate NarrowsRequirement(effective: Grant, requirement: ResolvedRequirement) {
    && effective.capability == requirement.Identity()
    && ResourcesNarrow(effective.resources, requirement.resources)
    && effective.modes <= requirement.descriptor.modes
    && EffectAtMost(effective.maximumEffect, requirement.descriptor.effect)
    && FreshnessAtLeast(effective.freshness, requirement.descriptor.freshness)
    && EvidenceAtLeast(effective.evidence, requirement.descriptor.evidence)
    && PreconditionsKept(effective.preconditions, requirement.descriptor.preconditions)
  }

  lemma ResourcesNarrowTransitive(a: set<string>, b: set<string>, c: set<string>)
    requires ResourcesNarrow(a, b) && ResourcesNarrow(b, c)
    ensures ResourcesNarrow(a, c)
  {
    forall selector | selector in a
      ensures WithinSomePrefix(selector, c)
    {
      var middle :| middle in b && WithinPrefix(selector, middle);
      var outer :| outer in c && WithinPrefix(middle, outer);
      WithinPrefixTransitive(selector, middle, outer);
    }
  }

  /** Narrowing is transitive in every component. */
  lemma NarrowsGrantTransitive(a: Grant, b: Grant, c: Grant)
    requires NarrowsGrant(a, b) && NarrowsGrant(b, c)
    ensures NarrowsGrant(a, c)
  {
    ResourcesNarrowTransitive(a.resources, b.resources, c.resources);
  }

  /** A grant narrows itself exactly when it covers some resource. */
  lemma NarrowsGrantReflexive(g: Grant)
    ensures NarrowsGrant(g, g) <==> g.resources != {}
  {
    forall selector | selector in g.resources
      ensures WithinSomePrefix(selector, g.resources)
    {
      assert WithinPrefix(selector, selector);
    }
  }

  // ---------------------------------------------------------------- ancestry

  /** A delegation edge; its native constructor refuses a self-edge and repeated capability names. */
  datatype Edge = Edge(parent: string, child: string, capabilities: set<string>)

  /** The agents along a path of edges, in order. */
  function Agents(edges: seq<Edge>): seq<string> {
    if edges == [] then []
    else if |edges| == 1 then [edges[0].parent, edges[0].child]
    else Agents(edges[..|edges| - 1]) + [edges[|edges| - 1].child]
  }

  /** Edge by edge, a path on which no agent occurs twice. */
  predicate SimplePath(edges: seq<Edge>) {
    edges == [] ||
    (var last := edges[|edges| - 1];
     var earlier := edges[..|edges| - 1];
     && SimplePath(earlier)
     && (earlier != [] ==> last.parent == earlier[|earlier| - 1].child)
     && last.parent != last.child
     && last.child !in Agents(earlier))
  }

  predicate Distinct<T(==)>(items: seq<T>) {
    forall i, j | 0 <= i < j < |items| :: items[i] != items[j]
  }

  lemma {:induction false} SimplePathIsDistinct(edges: seq<Edge>)
    requires SimplePath(edges)
    ensures Distinct(Agents(edges))
    ensures edges != [] ==> |Agents(edges)| == |edges| + 1
    ensures edges != [] ==> Agents(edges)[|edges|] == edges[|edges| - 1].child
    ensures forall i | 0 <= i < |edges| :: Agents(edges)[i] == edges[i].parent && Agents(edges)[i + 1] == edges[i].child
  {
    if |edges| > 1 {
      SimplePathIsDistinct(edges[..|edges| - 1]);
    }
  }

  lemma {:induction false} PrefixIsSimple(edges: seq<Edge>, k: nat)
    requires SimplePath(edges) && k <= |edges|
    ensures SimplePath(edges[..k])
  {
    if k < |edges| {
      assert edges[..|edges| - 1][..k] == edges[..k];
      PrefixIsSimple(edges[..|edges| - 1], k);
    } else {
      assert edges[..k] == edges;
    }
  }

  lemma SimplePathStep(edges: seq<Edge>, k: nat)
    requires k < |edges| && SimplePath(edges[..k])
    ensures SimplePath(edges[..k + 1]) <==>
            && (k > 0 ==> edges[k].parent == edges[k - 1].child)
            && edges[k].parent != edges[k].child
            && edges[k].child !in Agents(edges[..k])
  {
    assert edges[..k + 1][..k] == edges[..k];
  }

  function AgentSet(edges: seq<Edge>): set<string> {
    set agent | agent in Agents(edges)
  }

  lemma AgentSetStep(edges: seq<Edge>, k: nat)
    requires k < |edges| && (k > 0 ==> edges[k].parent in Agents(edges[..k]))
    ensures AgentSet(edges[..k + 1]) == AgentSet(edges[..k]) + {edges[k].parent, edges[k].child}
  {
    assert edges[..k + 1][..k] == edges[..k];
    if k == 0 {
      assert Agents(edges[..1]) == [edges[0].parent, edges[0].child];
    } else {
      assert Agents(edges[..k + 1]) == Agents(edges[..k]) + [edges[k].child];
    }
  }

  /** The walk over the ancestry at the start of `intersect_child_envelope`. */
  method WalkAncestry(ancestry: seq<Edge>) returns (ok: bool, seenAgents: set<string>, previousChild: Option<string>)
    ensures ok <==> SimplePath(ancestry)
    ensures ok ==> seenAgents == AgentSet(ancestry)
    ensures ok ==> previousChild == if ancestry == [] then None else Some(ancestry[|ancestry| - 1].child)
  {
    seenAgents, previousChild := {}, None;
    for k := 0 to |ancestry|
      invariant SimplePath(ancestry[..k])
      invariant seenAgents == AgentSet(ancestry[..k])
      invariant previousChild == if k == 0 then None else Some(ancestry[k - 1].child)
    {
      var entry := ancestry[k];
      SimplePathStep(ancestry, k);
      SimplePathIsDistinct(ancestry[..k]);
      if (previousChild.Some? && entry.parent != previousChild.value) || entry.parent == entry.child || entry.child in seenAgents {
        if SimplePath(ancestry) {
          PrefixIsSimple(ancestry, k + 1);
        }
        return false, {}, None;
      }
      assert k > 0 ==> ancestry[..k][k - 1] == ancestry[k - 1];
      AgentSetStep(ancestry, k);
      seenAgents := seenAgents + {entry.parent};
      seenAgents := seenAgents + {entry.child};
      previousChild := Some(entry.child);
    }
    assert ancestry[..|ancestry|] == ancestry;
    ok := true;
  }

  /** `DelegationAncestry::try_new` of crates/kiteframe-contract/src/service.rs, on edges that are no self-edges. */
  method TryNewAncestry(edges: seq<Edge>) returns (ok: bool)
    requires forall i | 0 <= i < |edges| :: edges[i].parent != edges[i].child
    ensures ok <==> SimplePath(edges)
  {
    var seenAgents: set<string> := {};
    var previousChild: Option<string> := None;
    for k := 0 to |edges|
      invariant SimplePath(edges[..k])
      invariant seenAgents == AgentSet(edges[..k])
      invariant previousChild == if k == 0 then None else Some(edges[k - 1].child)
    {
      var edge := edges[k];
      SimplePathStep(edges, k);
      SimplePathIsDistinct(edges[..k]);
      if SimplePath(edges) {
        PrefixIsSimple(edges, k + 1);
      }
      if previousChild.Some? && previousChild.value != edge.parent {
        return false;
      }
      if previousChild.None? {
        if edge.parent in seenAgents {
          return false;
        }
        seenAgents := seenAgents + {edge.parent};
      }
      if edge.child in seenAgents {
        return false;
      }
      assert k > 0 ==> edges[..k][k - 1] == edges[k - 1];
      AgentSetStep(edges, k);
      seenAgents := seenAgents + {edge.child};
      previousChild := Some(edge.child);
    }
    assert edges[..|edges|] == edges;
    ok := true;
  }

  // ---------------------------------------------------------------- one child

  datatype Revisions = Revisions(entries: map<string, string>, digest: string)

  datatype Session = Session(actor: string, session: string, task: string, grants: seq<Grant>, revisions: Revisions)

  datatype DelegationError = AdmissionDenied | InvalidEdge | ChildrenUnresolved

  datatype Envelope = Envelope(grants: seq<Grant>, expiresAt: Timestamp, revisions: Revisions, ancestry: seq<Edge>)

  predicate UniqueNames(grants: seq<Grant>) {
    forall i, j | 0 <= i < j < |grants| :: grants[i].capability.name != grants[j].capability.name
  }

  predicate RevisionsKept(child: Revisions, parent: Revisions) {
    forall source | source in parent.entries :: source in child.entries && child.entries[source] == parent.entries[source]
  }

  predicate NarrowsSomeGrant(grant: Grant, parent: seq<Grant>) {
    exists i | 0 <= i < |parent| :: NarrowsGrant(grant, parent[i])
  }

  predicate NarrowsSomeRequirement(grant: Grant, requirements: seq<ResolvedRequirement>) {
    exists i | 0 <= i < |requirements| :: NarrowsRequirement(grant, requirements[i])
  }

  /** What every admitted grant must satisfy: delegated by name, and no wider than its parent and its requirement. */
  predicate GrantAccepted(grant: Grant, parent: seq<Grant>, delegated: set<string>, requirements: seq<ResolvedRequirement>) {
    grant.capability.name in delegated && NarrowsSomeGrant(grant, parent) && NarrowsSomeRequirement(grant, requirements)
  }

  predicate HasGrant(grants: seq<Grant>, capability: CapabilityIdentity) {
    exists i | 0 <= i < |grants| :: grants[i].capability == capability
  }

  predicate RequirementsMet(requirements: seq<ResolvedRequirement>, admitted: seq<Grant>) {
    forall i | 0 <= i < |requirements| && requirements[i].required :: HasGrant(admitted, requirements[i].Identity())
  }

  /** The child agent continues the path to its parent and is new on it. */
  predicate ContinuesPath(ancestry: seq<Edge>, parentAgent: string, childAgent: string) {
    && parentAgent != childAgent
    && (ancestry != [] ==> parentAgent == ancestry[|ancestry| - 1].child)
    && childAgent !in Agents(ancestry)
  }

  /** The child extends the path, keeps the parent's revisions and meets the requirements. */
  predicate ChildFits(parent: Session, requirements: seq<ResolvedRequirement>, child: Session,
                      ancestry: seq<Edge>, parentAgent: string, childAgent: string) {
    && UniqueGrants(parent.grants)
    && UniqueRequirements(requirements)
    && RevisionsKept(child.revisions, parent.revisions)
    && SimplePath(ancestry)
    && ContinuesPath(ancestry, parentAgent, childAgent)
    && RequirementsMet(requirements, child.grants)
  }

  /** Everything `intersect_child_envelope` requires of one declared child. */
  predicate ChildAccepted(parent: Session, delegated: set<string>, requirements: seq<ResolvedRequirement>, child: Session,
                          ancestry: seq<Edge>, parentAgent: string, childAgent: string) {
    && ChildFits(parent, requirements, child, ancestry, parentAgent, childAgent)
    && (forall i | 0 <= i < |child.grants| :: GrantAccepted(child.grants[i], parent.grants, delegated, requirements))
    && UniqueNames(child.grants)
  }

  /** A grant that a mapping by identity keeps. */
  predicate LastOfItsIdentity(grants: seq<Grant>, i: nat)
    requires i < |grants|
  {
    forall j | i < j < |grants| :: grants[j].capability != grants[i].capability
  }

  function Earliest(grants: seq<Grant>): (expiresAt: Timestamp)
    ensures grants == [] ==> expiresAt == 0
    ensures forall i | 0 <= i < |grants| :: expiresAt <= grants[i].expiresAt
    ensures grants != [] ==> exists i | 0 <= i < |grants| :: expiresAt == grants[i].expiresAt
  {
    if grants == [] then 0
    else if |grants| == 1 then grants[0].expiresAt
    else
      var rest := Earliest(grants[1..]);
      if grants[0].expiresAt <= rest then grants[0].expiresAt else rest
  }

  function GrantNames(grants: seq<Grant>): set<string> {
    set i | 0 <= i < |grants| :: grants[i].capability.name
  }

  function ChildEnvelope(child: Session, ancestry: seq<Edge>, parentAgent: string, childAgent: string): Envelope {
    Envelope(child.grants, Earliest(child.grants), child.revisions, ancestry + [Edge(parentAgent, childAgent, GrantNames(child.grants))])
  }

  /** A child of one identity can only narrow the parent grant of that identity. */
  method FindGrant(grants: seq<Grant>, capability: CapabilityIdentity) returns (found: Option<Grant>)
    requires UniqueGrants(grants)
    ensures found.None? <==> !HasGrant(grants, capability)
    ensures found.Some? ==> found.value.capability == capability && found.value in grants
    ensures found.Some? ==> forall i | 0 <= i < |grants| && grants[i].capability == capability :: grants[i] == found.value
  {
    found := None;
    for k := 0 to |grants|
      invariant found.None? <==> forall i | 0 <= i < k :: grants[i].capability != capability
      invariant found.Some? ==> found.value.capability == capability && found.value in grants[..k]
    {
      if grants[k].capability == capability {
        found := Some(grants[k]);
      }
    }
    if found.Some? {
      var at :| 0 <= at < |grants| && grants[at] == found.value;
      assert forall i | 0 <= i < |grants| && grants[i].capability == capability :: i == at;
    }
  }

  method FindRequirement(requirements: seq<ResolvedRequirement>, capability: CapabilityIdentity) returns (found: Option<ResolvedRequirement>)
    requires UniqueRequirements(requirements)
    ensures found.Some? ==> found.value in requirements
    ensures forall i | 0 <= i < |requirements| && requirements[i].Identity() == capability :: found == Some(requirements[i])
  {
    for k := 0 to |requirements|
      invariant forall i | 0 <= i < k :: requirements[i].Identity() != capability
    {
      if requirements[k].Identity() == capability {
        return Some(requirements[k]);
      }
    }
    found := None;
  }

  /** The checks on one admitted grant. */
  method CheckGrant(grant: Grant, parent: seq<Grant>, delegated: set<string>, requirements: seq<ResolvedRequirement>) returns (ok: bool)
    requires UniqueGrants(parent) && UniqueRequirements(requirements)
    ensures ok <==> GrantAccepted(grant, parent, delegated, requirements)
  {
    var parentGrant := FindGrant(parent, grant.capability);
    var requirement := FindRequirement(requirements, grant.capability);
    ok := && grant.capability.name in delegated && parentGrant.Some? && requirement.Some?
          && NarrowsGrant(grant, parentGrant.value) && NarrowsRequirement(grant, requirement.value);
    if ok {
      var i :| 0 <= i < |parent| && parent[i] == parentGrant.value;
      assert NarrowsGrant(grant, parent[i]);
      var j :| 0 <= j < |requirements| && requirements[j] == requirement.value;
      assert NarrowsRequirement(grant, requirements[j]);
    }
  }

  /** The grants that a mapping by identity keeps are accepted. */
  predicate KeptAccepted(grants: seq<Grant>, parent: seq<Grant>, delegated: set<string>, requirements: seq<ResolvedRequirement>) {
    forall i | 0 <= i < |grants| && LastOfItsIdentity(grants, i) :: GrantAccepted(grants[i], parent, delegated, requirements)
  }

  method CheckGrants(grants: seq<Grant>, parent: seq<Grant>, delegated: set<string>, requirements: seq<ResolvedRequirement>) returns (ok: bool)
    requires UniqueGrants(parent) && UniqueRequirements(requirements)
    ensures ok <==> KeptAccepted(grants, parent, delegated, requirements)
  {
    hide GrantAccepted;
    for k := 0 to |grants|
      invariant forall i | 0 <= i < k && LastOfItsIdentity(grants, i) :: GrantAccepted(grants[i], parent, delegated, requirements)
    {
      if LastOfItsIdentity(grants, k) {
        var accepted := CheckGrant(grants[k], parent, delegated, requirements);
        if !accepted {
          return false;
        }
      }
    }
    ok := true;
  }

  lemma UniquelyNamedAreAllKept(grants: seq<Grant>, parent: seq<Grant>, delegated: set<string>, requirements: seq<ResolvedRequirement>)
    ensures (forall i | 0 <= i < |grants| :: GrantAccepted(grants[i], parent, delegated, requirements)) ==> KeptAccepted(grants, parent, delegated, requirements)
    ensures UniqueNames(grants) && KeptAccepted(grants, parent, delegated, requirements) ==>
            forall i | 0 <= i < |grants| :: GrantAccepted(grants[i], parent, delegated, requirements)
  {
    hide GrantAccepted;
  }

  /**
   `intersect_child_envelope` for a declared child with a session and both agents. Grants delegated by a
   declaration are the parent's of that name, so the two narrowing checks coincide. Only the last grant of an
   identity is checked, but no child with two grants of one name gets an edge.
   */
  method IntersectChildEnvelope(parent: Session, delegated: set<string>, requirements: seq<ResolvedRequirement>, child: Session,
                                ancestry: seq<Edge>, parentAgent: string, childAgent: string)
    returns (r: Result<Envelope, DelegationError>)
    ensures r.Success? <==> ChildAccepted(parent, delegated, requirements, child, ancestry, parentAgent, childAgent)
    ensures r.Success? ==> r.value == ChildEnvelope(child, ancestry, parentAgent, childAgent)
    ensures r.Failure? ==>
              r.error == if && ChildFits(parent, requirements, child, ancestry, parentAgent, childAgent)
                            && KeptAccepted(child.grants, parent.grants, delegated, requirements)
                         then InvalidEdge else AdmissionDenied
  {
    hide GrantAccepted, KeptAccepted;
    UniquelyNamedAreAllKept(child.grants, parent.grants, delegated, requirements);
    if !UniqueGrants(parent.grants) || !UniqueRequirements(requirements) || !RevisionsKept(child.revisions, parent.revisions) {
      return Failure(AdmissionDenied);
    }
    var ok, seenAgents, previousChild := WalkAncestry(ancestry);
    if !ok {
      return Failure(AdmissionDenied);
    }
    if parentAgent == childAgent || (previousChild.Some? && parentAgent != previousChild.value) || childAgent in seenAgents {
      return Failure(AdmissionDenied);
    }
    for k := 0 to |requirements|
      invariant forall i | 0 <= i < k && requirements[i].required :: HasGrant(child.grants, requirements[i].Identity())
    {
      if requirements[k].required && !HasGrant(child.grants, requirements[k].Identity()) {
        return Failure(AdmissionDenied);
      }
    }
    var narrows := CheckGrants(child.grants, parent.grants, delegated, requirements);
    if !narrows {
      return Failure(AdmissionDenied);
    }
    if !UniqueNames(child.grants) {
      return Failure(InvalidEdge);
    }
    r := Success(ChildEnvelope(child, ancestry, parentAgent, childAgent));
  }

  // ---------------------------------------------------------------- the declared tree

  /** The lock and catalog facts a request repeats from its resolved agent. */
  datatype LockFacts = LockFacts(
    portableDigest: string, lockDigest: string, catalogName: string, catalogRevision: string, catalogDigest: string)

  datatype Declaration = Declaration(packageName: string, packageVersion: string, resolvedDigest: string, delegated: set<string>)

  datatype ResolvedAgent = ResolvedAgent(
    packageName: string, resolvedDigest: string, facts: LockFacts, declarations: seq<Declaration>, requirements: seq<ResolvedRequirement>)

  datatype Request = Request(
    agent: string, actor: string, session: string, task: string, resolvedDigest: string, facts: LockFacts, ancestry: seq<Edge>)

  datatype Admission = Admission(actor: string, session: string, task: string, grants: seq<Grant>, revisionDigest: string)

  /** `DeclaredSubAgentInput`. */
  datatype DeclaredChild = DeclaredChild(
    declaration: Declaration, agent: ResolvedAgent, session: Session, request: Request, admission: Admission, children: seq<DeclaredChild>)

  datatype PreparedAgent = PreparedAgent(packageName: string, session: Session, ancestry: seq<Edge>, children: seq<PreparedAgent>)

  /** A package name and a resolved digest. */
  type AgentIdentity = (string, string)

  function AgentRef(packageName: string): string {
    "agent:" + packageName
  }

  predicate SameDeclaration(a: Declaration, b: Declaration) {
    a.packageName == b.packageName && a.packageVersion == b.packageVersion && a.resolvedDigest == b.resolvedDigest
  }

  /** The native check that a grant set belongs to its request. */
  type Loader = (Request, Admission) -> bool

  /** `bind_child_admission`. */
  predicate Binds(loads: Loader, child: DeclaredChild, ancestry: seq<Edge>) {
    && loads(child.request, child.admission)
    && child.request.ancestry == ancestry
    && child.request.actor == child.admission.actor == child.session.actor
    && child.request.session == child.admission.session == child.session.session
    && child.request.task == child.admission.task == child.session.task
    && child.admission.grants == child.session.grants
    && child.admission.revisionDigest == child.session.revisions.digest
  }

  /** The comparisons of a child's inputs with its declaration and its parent's session. */
  predicate InputsMatch(declaration: Declaration, child: DeclaredChild, parent: Session, identities: seq<AgentIdentity>) {
    && child.agent.packageName == declaration.packageName
    && child.agent.resolvedDigest == declaration.resolvedDigest
    && child.request.agent == AgentRef(declaration.packageName)
    && child.request.facts == child.agent.facts
    && child.request.resolvedDigest == child.agent.resolvedDigest
    && (declaration.packageName, declaration.resolvedDigest) !in identities
    && child.session.actor == parent.actor && child.session.session == parent.session && child.session.task == parent.task
  }

  predicate DistinctDeclared(declarations: seq<Declaration>) {
    forall i, j | 0 <= i < j < |declarations| :: declarations[i].packageName != declarations[j].packageName
  }

  predicate DistinctSupplied(children: seq<DeclaredChild>) {
    forall i, j | 0 <= i < j < |children| :: children[i].declaration.packageName != children[j].declaration.packageName
  }

  predicate Supplied(children: seq<DeclaredChild>, declaration: Declaration) {
    exists i | 0 <= i < |children| :: SameDeclaration(children[i].declaration, declaration)
  }

  predicate Declared(declarations: seq<Declaration>, child: DeclaredChild) {
    exists i | 0 <= i < |declarations| :: SameDeclaration(declarations[i], child.declaration)
  }

  /** The declared and the supplied children correspond one to one; names are distinct, so sorted identities are equal exactly then. */
  predicate Corresponds(declarations: seq<Declaration>, children: seq<DeclaredChild>) {
    && DistinctDeclared(declarations) && DistinctSupplied(children)
    && (forall i | 0 <= i < |declarations| :: Supplied(children, declarations[i]))
    && (forall i | 0 <= i < |children| :: Declared(declarations, children[i]))
  }

  function Locate(children: seq<DeclaredChild>, declaration: Declaration): (i: nat)
    requires Supplied(children, declaration)
    ensures i < |children| && SameDeclaration(children[i].declaration, declaration)
  {
    if SameDeclaration(children[0].declaration, declaration) then 0
    else
      assert Supplied(children[1..], declaration) by {
        var i :| 0 <= i < |children| && SameDeclaration(children[i].declaration, declaration);
        assert SameDeclaration(children[1..][i - 1].declaration, declaration);
      }
      Locate(children[1..], declaration) + 1
  }

  /** A child whose declaration, inputs, narrowing and admission are all in order. */
  predicate ChildInOrder(loads: Loader, agent: ResolvedAgent, session: Session, declaration: Declaration, child: DeclaredChild,
                         ancestry: seq<Edge>, identities: seq<AgentIdentity>) {
    && InputsMatch(declaration, child, session, identities)
    && ChildAccepted(session, declaration.delegated, child.agent.requirements, child.session, ancestry,
                     AgentRef(agent.packageName), AgentRef(declaration.packageName))
    && Binds(loads, child, ChildAncestry(agent, declaration, child, ancestry))
  }

  function ChildAncestry(agent: ResolvedAgent, declaration: Declaration, child: DeclaredChild, ancestry: seq<Edge>): seq<Edge> {
    ChildEnvelope(child.session, ancestry, AgentRef(agent.packageName), AgentRef(declaration.packageName)).ancestry
  }

  /** The trees `_prepare_agent` accepts. */
  predicate TreeAccepted(loads: Loader, agent: ResolvedAgent, session: Session, children: seq<DeclaredChild>,
                         ancestry: seq<Edge>, identities: seq<AgentIdentity>)
    decreases children, 1
  {
    && Corresponds(agent.declarations, children)
    && ChildrenAccepted(loads, agent, session, children, ancestry, identities, |agent.declarations|)
  }

  /** The first k declarations, each with the child supplied for it. */
  predicate ChildrenAccepted(loads: Loader, agent: ResolvedAgent, session: Session, children: seq<DeclaredChild>,
                             ancestry: seq<Edge>, identities: seq<AgentIdentity>, k: nat)
    requires k <= |agent.declarations| && forall i | 0 <= i < |agent.declarations| :: Supplied(children, agent.declarations[i])
    decreases children, 0, k
  {
    k == 0 ||
    (var declaration := agent.declarations[k - 1];
     var child := children[Locate(children, declaration)];
     && ChildrenAccepted(loads, agent, session, children, ancestry, identities, k - 1)
     && ChildInOrder(loads, agent, session, declaration, child, ancestry, identities)
     && TreeAccepted(loads, child.agent, child.session, child.children, ChildAncestry(agent, declaration, child, ancestry),
                     identities + [(declaration.packageName, declaration.resolvedDigest)]))
  }

  /** The tree that is compiled from an accepted declaration. */
  function Prepared(loads: Loader, agent: ResolvedAgent, session: Session, children: seq<DeclaredChild>,
                    ancestry: seq<Edge>, identities: seq<AgentIdentity>): PreparedAgent
    requires TreeAccepted(loads, agent, session, children, ancestry, identities)
    decreases children, 1
  {
    PreparedAgent(agent.packageName, session, ancestry,
                  PreparedChildren(loads, agent, session, children, ancestry, identities, |agent.declarations|))
  }

  function PreparedChildren(loads: Loader, agent: ResolvedAgent, session: Session, children: seq<DeclaredChild>,
                            ancestry: seq<Edge>, identities: seq<AgentIdentity>, k: nat): (prepared: seq<PreparedAgent>)
    requires k <= |agent.declarations| && forall i | 0 <= i < |agent.declarations| :: Supplied(children, agent.declarations[i])
    requires ChildrenAccepted(loads, agent, session, children, ancestry, identities, k)
    ensures |prepared| == k
    decreases children, 0, k
  {
    if k == 0 then []
    else
      var declaration := agent.declarations[k - 1];
      var child := children[Locate(children, declaration)];
      PreparedChildren(loads, agent, session, children, ancestry, identities, k - 1)
      + [Prepared(loads, child.agent, child.session, child.children, ChildAncestry(agent, declaration, child, ancestry),
                  identities + [(declaration.packageName, declaration.resolvedDigest)])]
  }

  lemma {:induction false} RejectionStays(loads: Loader, agent: ResolvedAgent, session: Session, children: seq<DeclaredChild>,
                                          ancestry: seq<Edge>, identities: seq<AgentIdentity>, k: nat, n: nat)
    requires k <= n <= |agent.declarations| && forall i | 0 <= i < |agent.declarations| :: Supplied(children, agent.declarations[i])
    requires ChildrenAccepted(loads, agent, session, children, ancestry, identities, n)
    ensures ChildrenAccepted(loads, agent, session, children, ancestry, identities, k)
    decreases n
  {
    hide ChildInOrder, TreeAccepted;
    if k < n {
      RejectionStays(loads, agent, session, children, ancestry, identities, k, n - 1);
    }
  }

  /** A declared child that is not in order, above or below, rejects the whole tree. */
  lemma RejectedAt(loads: Loader, agent: ResolvedAgent, session: Session, children: seq<DeclaredChild>,
                   ancestry: seq<Edge>, identities: seq<AgentIdentity>, k: nat)
    requires k < |agent.declarations| && Corresponds(agent.declarations, children)
    requires
      var declaration := agent.declarations[k];
      var child := children[Locate(children, declaration)];
      || !ChildInOrder(loads, agent, session, declaration, child, ancestry, identities)
      || !TreeAccepted(loads, child.agent, child.session, child.children, ChildAncestry(agent, declaration, child, ancestry),
                       identities + [(declaration.packageName, declaration.resolvedDigest)])
    ensures !TreeAccepted(loads, agent, session, children, ancestry, identities)
  {
    hide ChildInOrder;
    if TreeAccepted(loads, agent, session, children, ancestry, identities) {
      RejectionStays(loads, agent, session, children, ancestry, identities, k + 1, |agent.declarations|);
    }
  }

  /** One pass of the loop over the declarations: check the child, then prepare the tree below it. */
  method PrepareChild(loads: Loader, agent: ResolvedAgent, session: Session, ghost siblings: seq<DeclaredChild>,
                      declaration: Declaration, child: DeclaredChild, ancestry: seq<Edge>, identities: seq<AgentIdentity>)
    returns (r: Result<PreparedAgent, DelegationError>)
    requires child in siblings
    ensures
      var extended := ChildAncestry(agent, declaration, child, ancestry);
      var seen := identities + [(declaration.packageName, declaration.resolvedDigest)];
      if && ChildInOrder(loads, agent, session, declaration, child, ancestry, identities)
         && TreeAccepted(loads, child.agent, child.session, child.children, extended, seen)
      then r == Success(Prepared(loads, child.agent, child.session, child.children, extended, seen))
      else r.Failure?
    decreases siblings, 0, 0
  {
    hide ChildAccepted, InputsMatch, Binds, Corresponds, TreeAccepted, Prepared;
    if !InputsMatch(declaration, child, session, identities) {
      return Failure(AdmissionDenied);
    }
    var parentAgent, childAgent := AgentRef(agent.packageName), AgentRef(declaration.packageName);
    var envelope := IntersectChildEnvelope(session, declaration.delegated, child.agent.requirements, child.session, ancestry, parentAgent, childAgent);
    if envelope.Failure? {
      return Failure(envelope.error);
    }
    if !Binds(loads, child, envelope.value.ancestry) {
      return Failure(AdmissionDenied);
    }
    r := PrepareAgent(loads, child.agent, child.session, child.children, envelope.value.ancestry,
                      identities + [(declaration.packageName, declaration.resolvedDigest)]);
  }

  /** `_prepare_agent`: the whole declared tree is validated before anything is built. */
  method PrepareAgent(loads: Loader, agent: ResolvedAgent, session: Session, children: seq<DeclaredChild>,
                      ancestry: seq<Edge>, identities: seq<AgentIdentity>)
    returns (r: Result<PreparedAgent, DelegationError>)
    ensures if TreeAccepted(loads, agent, session, children, ancestry, identities)
            then r == Success(Prepared(loads, agent, session, children, ancestry, identities))
            else r.Failure?
    ensures agent.declarations != [] && children == [] && DistinctDeclared(agent.declarations) ==> r == Failure(ChildrenUnresolved)
    decreases children, 1
  {
    if !DistinctDeclared(agent.declarations) || !DistinctSupplied(children) {
      return Failure(AdmissionDenied);
    }
    if |agent.declarations| == 0 {
      if |children| != 0 {
        assert !Declared(agent.declarations, children[0]);
        return Failure(AdmissionDenied);
      }
      return Success(PreparedAgent(agent.packageName, session, ancestry, []));
    }
    if |children| == 0 {
      assert !Supplied(children, agent.declarations[0]);
      return Failure(ChildrenUnresolved);
    }
    if !Corresponds(agent.declarations, children) {
      return Failure(AdmissionDenied);
    }
    r := PrepareChildren(loads, agent, session, children, ancestry, identities);
  }

  method PrepareChildren(loads: Loader, agent: ResolvedAgent, session: Session, children: seq<DeclaredChild>,
                         ancestry: seq<Edge>, identities: seq<AgentIdentity>)
    returns (r: Result<PreparedAgent, DelegationError>)
    requires Corresponds(agent.declarations, children)
    ensures if TreeAccepted(loads, agent, session, children, ancestry, identities)
            then r == Success(Prepared(loads, agent, session, children, ancestry, identities))
            else r.Failure?
    decreases children, 0, 1
  {
    var prepared: seq<PreparedAgent> := [];
    for k := 0 to |agent.declarations|
      invariant ChildrenAccepted(loads, agent, session, children, ancestry, identities, k)
      invariant prepared == PreparedChildren(loads, agent, session, children, ancestry, identities, k)
    {
      hide ChildInOrder, Corresponds, TreeAccepted, Prepared;
      var declaration := agent.declarations[k];
      var child := children[Locate(children, declaration)];
      var below := PrepareChild(loads, agent, session, children, declaration, child, ancestry, identities);
      if below.Failure? {
        RejectedAt(loads, agent, session, children, ancestry, identities, k);
        return Failure(below.error);
      }
      prepared := prepared + [below.value];
    }
    r := Success(PreparedAgent(agent.packageName, session, ancestry, prepared));
  }

  // ---------------------------------------------------------------- narrowing over the whole tree

  /** Every grant of the child session narrows a grant of the parent session, and the child's revisions include the parent's. */
  predicate SessionNarrows(child: Session, parent: Session) {
    && (forall i | 0 <= i < |child.grants| :: NarrowsSomeGrant(child.grants[i], parent.grants))
    && RevisionsKept(child.revisions, parent.revisions)
    && child.actor == parent.actor && child.session == parent.session && child.task == parent.task
  }

  lemma SessionNarrowsTransitive(a: Session, b: Session, c: Session)
    requires SessionNarrows(a, b) && SessionNarrows(b, c)
    ensures SessionNarrows(a, c)
  {
    hide NarrowsGrant;
    forall i | 0 <= i < |a.grants|
      ensures NarrowsSomeGrant(a.grants[i], c.grants)
    {
      var j :| 0 <= j < |b.grants| && NarrowsGrant(a.grants[i], b.grants[j]);
      var k :| 0 <= k < |c.grants| && NarrowsGrant(b.grants[j], c.grants[k]);
      NarrowsGrantTransitive(a.grants[i], b.grants[j], c.grants[k]);
    }
  }

  /** The ancestry is exactly the edges between these agents, none of which occurs twice. */
  predicate IsPath(ancestry: seq<Edge>, agents: seq<string>) {
    && |agents| == |ancestry| + 1
    && Distinct(agents)
    && forall i | 0 <= i < |ancestry| :: ancestry[i].parent == agents[i] && ancestry[i].child == agents[i + 1]
  }

  /** Below `above`, every session narrows it, and every ancestry is the simple path from the root. */
  predicate NarrowsThroughout(tree: PreparedAgent, above: Session, agents: seq<string>) {
    && SessionNarrows(tree.session, above)
    && IsPath(tree.ancestry, agents)
    && agents[|agents| - 1] == AgentRef(tree.packageName)
    && forall i | 0 <= i < |tree.children| ::
         NarrowsThroughout(tree.children[i], above, agents + [AgentRef(tree.children[i].packageName)])
  }

  lemma PathGrows(ancestry: seq<Edge>, agents: seq<string>, edge: Edge)
    requires IsPath(ancestry, agents) && ContinuesPath(ancestry, edge.parent, edge.child) && SimplePath(ancestry)
    requires edge.parent == agents[|agents| - 1]
    ensures IsPath(ancestry + [edge], agents + [edge.child])
  {
    SimplePathIsDistinct(ancestry);
    forall i | 0 <= i < |agents|
      ensures agents[i] != edge.child
    {
      if ancestry != [] {
        assert agents[i] == Agents(ancestry)[i];
      }
    }
  }

  lemma AcceptedChildNarrows(parent: Session, delegated: set<string>, requirements: seq<ResolvedRequirement>, child: Session,
                             ancestry: seq<Edge>, parentAgent: string, childAgent: string)
    requires ChildAccepted(parent, delegated, requirements, child, ancestry, parentAgent, childAgent)
    requires child.actor == parent.actor && child.session == parent.session && child.task == parent.task
    ensures SessionNarrows(child, parent)
  {
    hide NarrowsGrant, NarrowsSomeRequirement, NarrowsSomeGrant;
    forall i | 0 <= i < |child.grants|
      ensures NarrowsSomeGrant(child.grants[i], parent.grants)
    {
      assert GrantAccepted(child.grants[i], parent.grants, delegated, requirements);
    }
  }

  /** One edge of the tree: the child narrows its parent and extends the path by one new agent. */
  lemma EdgeNarrows(loads: Loader, agent: ResolvedAgent, session: Session, declaration: Declaration, child: DeclaredChild,
                    ancestry: seq<Edge>, identities: seq<AgentIdentity>, agents: seq<string>)
    requires ChildInOrder(loads, agent, session, declaration, child, ancestry, identities)
    requires IsPath(ancestry, agents) && agents[|agents| - 1] == AgentRef(agent.packageName)
    ensures SessionNarrows(child.session, session)
    ensures child.agent.packageName == declaration.packageName
    ensures IsPath(ChildAncestry(agent, declaration, child, ancestry), agents + [AgentRef(declaration.packageName)])
  {
    var parentAgent, childAgent := AgentRef(agent.packageName), AgentRef(declaration.packageName);
    AcceptedChildNarrows(session, declaration.delegated, child.agent.requirements, child.session, ancestry, parentAgent, childAgent);
    hide SessionNarrows, Binds;
    PathGrows(ancestry, agents, Edge(parentAgent, childAgent, GrantNames(child.session.grants)));
  }

  lemma {:induction false} TreeNarrows(loads: Loader, agent: ResolvedAgent, session: Session, children: seq<DeclaredChild>,
                                       ancestry: seq<Edge>, identities: seq<AgentIdentity>, above: Session, agents: seq<string>)
    requires TreeAccepted(loads, agent, session, children, ancestry, identities)
    requires SessionNarrows(session, above)
    requires IsPath(ancestry, agents) && agents[|agents| - 1] == AgentRef(agent.packageName)
    ensures NarrowsThroughout(Prepared(loads, agent, session, children, ancestry, identities), above, agents)
    decreases children, 1
  {
    hide SessionNarrows, IsPath, ChildInOrder, Supplied, Declared;
    ChildrenNarrow(loads, agent, session, children, ancestry, identities, above, agents, |agent.declarations|);
    var tree := Prepared(loads, agent, session, children, ancestry, identities);
    assert tree.children == PreparedChildren(loads, agent, session, children, ancestry, identities, |agent.declarations|);
    assert tree.session == session && tree.ancestry == ancestry && tree.packageName == agent.packageName;
  }

  lemma {:induction false} ChildrenNarrow(loads: Loader, agent: ResolvedAgent, session: Session, children: seq<DeclaredChild>,
                                          ancestry: seq<Edge>, identities: seq<AgentIdentity>, above: Session, agents: seq<string>, k: nat)
    requires k <= |agent.declarations| && forall i | 0 <= i < |agent.declarations| :: Supplied(children, agent.declarations[i])
    requires ChildrenAccepted(loads, agent, session, children, ancestry, identities, k)
    requires SessionNarrows(session, above)
    requires IsPath(ancestry, agents) && agents[|agents| - 1] == AgentRef(agent.packageName)
    ensures
      var prepared := PreparedChildren(loads, agent, session, children, ancestry, identities, k);
      forall i | 0 <= i < k :: NarrowsThroughout(prepared[i], above, agents + [AgentRef(prepared[i].packageName)])
    decreases children, 0, k
  {
    hide SessionNarrows, IsPath, ChildInOrder, TreeAccepted, NarrowsThroughout;
    if k > 0 {
      var declaration := agent.declarations[k - 1];
      var child := children[Locate(children, declaration)];
      ChildrenNarrow(loads, agent, session, children, ancestry, identities, above, agents, k - 1);
      EdgeNarrows(loads, agent, session, declaration, child, ancestry, identities, agents);
      SessionNarrowsTransitive(child.session, session, above);
      var extended := ChildAncestry(agent, declaration, child, ancestry);
      var seen := identities + [(declaration.packageName, declaration.resolvedDigest)];
      TreeNarrows(loads, child.agent, child.session, child.children, extended, seen, above, agents + [AgentRef(declaration.packageName)]);
      var below := Prepared(loads, child.agent, child.session, child.children, extended, seen);
      assert below.packageName == declaration.packageName;
      assert PreparedChildren(loads, agent, session, children, ancestry, identities, k)
          == PreparedChildren(loads, agent, session, children, ancestry, identities, k - 1) + [below];
    }
  }

  /**
   However deep the declared tree, in the tree that is compiled every descendant's grants narrow the root
   session's, its revisions include the root's, and its ancestry is the simple path from the root to it.
   The root's own grants must cover some resource, as grants do by construction.
   */
  lemma DescendantsNarrowTheRoot(loads: Loader, agent: ResolvedAgent, root: Session, children: seq<DeclaredChild>)
    requires forall i | 0 <= i < |root.grants| :: root.grants[i].Valid()
    requires TreeAccepted(loads, agent, root, children, [], [(agent.packageName, agent.resolvedDigest)])
    ensures NarrowsThroughout(Prepared(loads, agent, root, children, [], [(agent.packageName, agent.resolvedDigest)]),
                              root, [AgentRef(agent.packageName)])
  {
    forall i | 0 <= i < |root.grants|
      ensures NarrowsSomeGrant(root.grants[i], root.grants)
    {
      NarrowsGrantReflexive(root.grants[i]);
      assert NarrowsGrant(root.grants[i], root.grants[i]);
    }
    TreeNarrows(loads, agent, root, children, [], [(agent.packageName, agent.resolvedDigest)], root, [AgentRef(agent.packageName)]);
  }
}
