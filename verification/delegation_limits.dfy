/**
 What an accepted delegation amounts to, stated on the inputs: narrowing a grant is permitting no more uses and
 reaching no more resources, one declared child is accepted exactly under the conditions spelled out here, a
 declared tree exactly when they hold along every edge of it, and then no descendant holds a capability that
 some declaration above it did not delegate.
 */
module DelegationLimits {
  import opened Outcomes
  import opened Contract
  import opened ResourceSelectors
  import opened Permissions
  import opened Delegation

  // ---------------------------------------------------------------- narrowing is inclusion

  /** Every text under a prefix of one set is under a prefix of the other. */
  ghost predicate ReachesNoMore(resources: set<string>, other: set<string>) {
    forall text: string | WithinSomePrefix(text, resources) :: WithinSomePrefix(text, other)
  }

  lemma ResourcesNarrowExactly(resources: set<string>, other: set<string>)
    ensures ResourcesNarrow(resources, other) <==> resources != {} && ReachesNoMore(resources, other)
  {
    if ResourcesNarrow(resources, other) {
      forall text: string | WithinSomePrefix(text, resources)
        ensures WithinSomePrefix(text, other)
      {
        var middle :| middle in resources && WithinPrefix(text, middle);
        var outer :| outer in other && WithinPrefix(middle, outer);
        WithinPrefixTransitive(text, middle, outer);
      }
    }
    if ReachesNoMore(resources, other) {
      forall selector | selector in resources
        ensures WithinSomePrefix(selector, other)
      {
        assert WithinPrefix(selector, selector);
        assert WithinSomePrefix(selector, resources);
      }
    }
  }

  /** A grant narrows another exactly when it reaches something and no more, and permits no more uses. */
  lemma NarrowingIsInclusion(grant: Grant, other: Grant)
    requires grant.modes != {} && grant.expiresAt > 0
    ensures NarrowsGrant(grant, other) <==>
            grant.resources != {} && ReachesNoMore(grant.resources, other.resources) && PermitsNoMore(grant, other)
  {
    ResourcesNarrowExactly(grant.resources, other.resources);
    ComponentsAreInclusion(grant, other);
  }

  lemma RequirementIsInclusion(grant: Grant, requirement: ResolvedRequirement)
    requires grant.modes != {} && grant.expiresAt > 0
    ensures NarrowsRequirement(grant, requirement) <==>
            grant.resources != {} && ReachesNoMore(grant.resources, requirement.resources) && PermitsNoMore(grant, Asked(requirement))
  {
    ResourcesNarrowExactly(grant.resources, requirement.resources);
    ComponentsAreInclusion(grant, Asked(requirement));
  }

  // ---------------------------------------------------------------- one child, exactly

  /** The agents from the root of a path to its end and on to a new one, each once. */
  ghost predicate ExtendsPath(ancestry: seq<Edge>, parentAgent: string, childAgent: string, agents: seq<string>) {
    && |agents| == |ancestry| + 2
    && (forall i | 0 <= i < |ancestry| :: ancestry[i].parent == agents[i] && ancestry[i].child == agents[i + 1])
    && agents[|ancestry|] == parentAgent && agents[|ancestry| + 1] == childAgent
    && (forall i, j | 0 <= i < j < |agents| :: agents[i] != agents[j])
  }

  lemma {:induction false} PathIsSimple(ancestry: seq<Edge>, agents: seq<string>)
    requires |agents| == |ancestry| + 1
    requires forall i | 0 <= i < |ancestry| :: ancestry[i].parent == agents[i] && ancestry[i].child == agents[i + 1]
    requires forall i, j | 0 <= i < j < |agents| :: agents[i] != agents[j]
    ensures SimplePath(ancestry) && (ancestry != [] ==> Agents(ancestry) == agents)
  {
    if ancestry != [] {
      var last := |ancestry| - 1;
      PathIsSimple(ancestry[..last], agents[..|agents| - 1]);
      assert agents == agents[..|agents| - 1] + [agents[|agents| - 1]];
      if last == 0 {
        assert Agents(ancestry) == [ancestry[0].parent, ancestry[0].child];
      }
    }
  }

  lemma ContinuesExactly(ancestry: seq<Edge>, parentAgent: string, childAgent: string)
    ensures SimplePath(ancestry) && ContinuesPath(ancestry, parentAgent, childAgent) <==>
            exists agents :: ExtendsPath(ancestry, parentAgent, childAgent, agents)
  {
    if SimplePath(ancestry) && ContinuesPath(ancestry, parentAgent, childAgent) {
      SimplePathIsDistinct(ancestry);
      var agents := (if ancestry == [] then [parentAgent] else Agents(ancestry)) + [childAgent];
      assert ExtendsPath(ancestry, parentAgent, childAgent, agents);
    }
    if agents :| ExtendsPath(ancestry, parentAgent, childAgent, agents) {
      var upto := agents[..|agents| - 1];
      PathIsSimple(ancestry, upto);
      assert forall agent | agent in upto :: agent != childAgent;
      if ancestry == [] {
        assert Agents(ancestry) == [];
      }
    }
  }

  /** One grant of the child: delegated by name, within a grant of the parent, and asked for. */
  ghost predicate GrantLawful(grant: Grant, parent: seq<Grant>, delegated: set<string>, requirements: seq<ResolvedRequirement>) {
    && grant.capability.name in delegated
    && (exists i :: 0 <= i < |parent| && NarrowsGrant(grant, parent[i]))
    && (exists i :: 0 <= i < |requirements| && NarrowsRequirement(grant, requirements[i]))
  }

  /** What `intersect_child_envelope` asks of one declared child, field by field. */
  ghost predicate ChildLawful(parent: Session, delegated: set<string>, requirements: seq<ResolvedRequirement>, child: Session,
                              ancestry: seq<Edge>, parentAgent: string, childAgent: string) {
    && (forall i, j | 0 <= i < j < |parent.grants| :: parent.grants[i].capability != parent.grants[j].capability)
    && (forall i, j | 0 <= i < j < |requirements| :: requirements[i].descriptor.identity != requirements[j].descriptor.identity)
    && parent.revisions.entries.Items <= child.revisions.entries.Items
    && (exists agents :: ExtendsPath(ancestry, parentAgent, childAgent, agents))
    && (forall i | 0 <= i < |requirements| && requirements[i].required ::
          exists k :: 0 <= k < |child.grants| && child.grants[k].capability == requirements[i].descriptor.identity)
    && (forall k | 0 <= k < |child.grants| :: GrantLawful(child.grants[k], parent.grants, delegated, requirements))
    && (forall i, j | 0 <= i < j < |child.grants| :: child.grants[i].capability.name != child.grants[j].capability.name)
  }

  lemma RevisionsKeptExactly(child: Revisions, parent: Revisions)
    ensures RevisionsKept(child, parent) <==> parent.entries.Items <= child.entries.Items
  {
    if RevisionsKept(child, parent) {
      forall item | item in parent.entries.Items
        ensures item in child.entries.Items
      {
        assert item.0 in child.entries && child.entries[item.0] == item.1;
      }
    }
    if parent.entries.Items <= child.entries.Items {
      forall source | source in parent.entries
        ensures source in child.entries && child.entries[source] == parent.entries[source]
      {
        assert (source, parent.entries[source]) in parent.entries.Items;
      }
    }
  }

  lemma ChildAcceptedExactly(parent: Session, delegated: set<string>, requirements: seq<ResolvedRequirement>, child: Session,
                             ancestry: seq<Edge>, parentAgent: string, childAgent: string)
    ensures ChildAccepted(parent, delegated, requirements, child, ancestry, parentAgent, childAgent)
       <==> ChildLawful(parent, delegated, requirements, child, ancestry, parentAgent, childAgent)
  {
    RevisionsKeptExactly(child.revisions, parent.revisions);
    ContinuesExactly(ancestry, parentAgent, childAgent);
    GrantsExactly(parent, delegated, requirements, child);
    hide RevisionsKept, SimplePath, ContinuesPath, ExtendsPath, GrantLawful, GrantAccepted;
  }

  lemma GrantAcceptedExactly(grant: Grant, parent: seq<Grant>, delegated: set<string>, requirements: seq<ResolvedRequirement>)
    ensures GrantAccepted(grant, parent, delegated, requirements) <==> GrantLawful(grant, parent, delegated, requirements)
  {
    hide NarrowsGrant, NarrowsRequirement;
  }

  lemma GrantsExactly(parent: Session, delegated: set<string>, requirements: seq<ResolvedRequirement>, child: Session)
    ensures (forall k | 0 <= k < |child.grants| :: GrantAccepted(child.grants[k], parent.grants, delegated, requirements)) <==>
            (forall k | 0 <= k < |child.grants| :: GrantLawful(child.grants[k], parent.grants, delegated, requirements))
  {
    hide GrantAccepted, GrantLawful;
    forall k | 0 <= k < |child.grants|
      ensures GrantAccepted(child.grants[k], parent.grants, delegated, requirements) <==> GrantLawful(child.grants[k], parent.grants, delegated, requirements)
    {
      GrantAcceptedExactly(child.grants[k], parent.grants, delegated, requirements);
    }
  }

  /** The envelope of an accepted child: its own grants and revisions, their earliest expiry, and one more edge naming what it holds. */
  lemma EnvelopeExactly(child: Session, ancestry: seq<Edge>, parentAgent: string, childAgent: string)
    ensures
      var envelope := ChildEnvelope(child, ancestry, parentAgent, childAgent);
      && envelope.grants == child.grants && envelope.revisions == child.revisions
      && (forall i | 0 <= i < |child.grants| :: envelope.expiresAt <= child.grants[i].expiresAt)
      && (child.grants != [] ==> exists i :: 0 <= i < |child.grants| && envelope.expiresAt == child.grants[i].expiresAt)
      && |envelope.ancestry| == |ancestry| + 1 && ancestry <= envelope.ancestry
      && envelope.ancestry[|ancestry|].parent == parentAgent && envelope.ancestry[|ancestry|].child == childAgent
      && forall name :: name in envelope.ancestry[|ancestry|].capabilities <==>
                        exists i :: 0 <= i < |child.grants| && child.grants[i].capability.name == name
  {}

  // ---------------------------------------------------------------- the declared tree, exactly

  /** What `_prepare_agent` asks along one edge of the declared tree, field by field. */
  ghost predicate EdgeLawful(loads: Loader, agent: ResolvedAgent, session: Session, declaration: Declaration, child: DeclaredChild,
                             ancestry: seq<Edge>, identities: seq<AgentIdentity>) {
    var parentAgent, childAgent := "agent:" + agent.packageName, "agent:" + declaration.packageName;
    && child.agent.packageName == declaration.packageName && child.agent.resolvedDigest == declaration.resolvedDigest
    && child.request.agent == childAgent
    && child.request.resolvedDigest == declaration.resolvedDigest && child.request.facts == child.agent.facts
    && (forall i | 0 <= i < |identities| :: identities[i] != (declaration.packageName, declaration.resolvedDigest))
    && ChildLawful(session, declaration.delegated, child.agent.requirements, child.session, ancestry, parentAgent, childAgent)
    && loads(child.request, child.admission)
    && child.request.ancestry == ChildEnvelope(child.session, ancestry, parentAgent, childAgent).ancestry
    && session.actor == child.session.actor == child.request.actor == child.admission.actor
    && session.session == child.session.session == child.request.session == child.admission.session
    && session.task == child.session.task == child.request.task == child.admission.task
    && child.admission.grants == child.session.grants
    && child.admission.revisionDigest == child.session.revisions.digest
  }

  lemma ChildInOrderExactly(loads: Loader, agent: ResolvedAgent, session: Session, declaration: Declaration, child: DeclaredChild,
                            ancestry: seq<Edge>, identities: seq<AgentIdentity>)
    ensures ChildInOrder(loads, agent, session, declaration, child, ancestry, identities)
       <==> EdgeLawful(loads, agent, session, declaration, child, ancestry, identities)
  {
    ChildAcceptedExactly(session, declaration.delegated, child.agent.requirements, child.session, ancestry,
                         AgentRef(agent.packageName), AgentRef(declaration.packageName));
    hide ChildAccepted, ChildLawful, ChildEnvelope;
  }

  /** Declared and supplied children correspond, with no name twice on either side. */
  predicate OneToOne(declarations: seq<Declaration>, children: seq<DeclaredChild>) {
    && (forall i, j | 0 <= i < j < |declarations| :: declarations[i].packageName != declarations[j].packageName)
    && (forall i, j | 0 <= i < j < |children| :: children[i].declaration.packageName != children[j].declaration.packageName)
    && (forall j | 0 <= j < |declarations| :: HasChild(declarations[j], children))
    && (forall i | 0 <= i < |children| :: HasDeclaration(declarations, children[i]))
  }

  predicate HasChild(declaration: Declaration, children: seq<DeclaredChild>) {
    exists i :: 0 <= i < |children| && For(declaration, children[i])
  }

  predicate HasDeclaration(declarations: seq<Declaration>, child: DeclaredChild) {
    exists j :: 0 <= j < |declarations| && For(declarations[j], child)
  }

  predicate For(declaration: Declaration, child: DeclaredChild) {
    && child.declaration.packageName == declaration.packageName
    && child.declaration.packageVersion == declaration.packageVersion
    && child.declaration.resolvedDigest == declaration.resolvedDigest
  }

  /** Every edge of the declared tree is lawful. */
  ghost predicate TreeLawful(loads: Loader, agent: ResolvedAgent, session: Session, children: seq<DeclaredChild>,
                             ancestry: seq<Edge>, identities: seq<AgentIdentity>)
    decreases children
  {
    && OneToOne(agent.declarations, children)
    && forall i, j | 0 <= i < |children| && 0 <= j < |agent.declarations| && For(agent.declarations[j], children[i]) ::
         && EdgeLawful(loads, agent, session, agent.declarations[j], children[i], ancestry, identities)
         && TreeLawful(loads, children[i].agent, children[i].session, children[i].children,
                       ChildAncestry(agent, agent.declarations[j], children[i], ancestry),
                       identities + [(agent.declarations[j].packageName, agent.declarations[j].resolvedDigest)])
  }

  lemma CorrespondsExactly(declarations: seq<Declaration>, children: seq<DeclaredChild>)
    ensures Corresponds(declarations, children) <==> OneToOne(declarations, children)
  {
    forall j | 0 <= j < |declarations|
      ensures Supplied(children, declarations[j]) <==> HasChild(declarations[j], children)
    {
      SuppliedExactly(declarations[j], children);
    }
    forall i | 0 <= i < |children|
      ensures Declared(declarations, children[i]) <==> HasDeclaration(declarations, children[i])
    {
      DeclaredExactly(declarations, children[i]);
    }
    hide Supplied, Declared, HasChild, HasDeclaration;
  }

  lemma SuppliedExactly(declaration: Declaration, children: seq<DeclaredChild>)
    ensures Supplied(children, declaration) <==> HasChild(declaration, children)
  {
    if i :| 0 <= i < |children| && SameDeclaration(children[i].declaration, declaration) {
      assert For(declaration, children[i]);
    }
    if i :| 0 <= i < |children| && For(declaration, children[i]) {
      assert SameDeclaration(children[i].declaration, declaration);
    }
  }

  lemma DeclaredExactly(declarations: seq<Declaration>, child: DeclaredChild)
    ensures Declared(declarations, child) <==> HasDeclaration(declarations, child)
  {
    if j :| 0 <= j < |declarations| && SameDeclaration(declarations[j], child.declaration) {
      assert For(declarations[j], child);
    }
    if j :| 0 <= j < |declarations| && For(declarations[j], child) {
      assert SameDeclaration(declarations[j], child.declaration);
    }
  }

  lemma LocatesTheChild(declarations: seq<Declaration>, children: seq<DeclaredChild>, i: nat, j: nat)
    requires Corresponds(declarations, children) && i < |children| && j < |declarations| && For(declarations[j], children[i])
    ensures Supplied(children, declarations[j]) && Locate(children, declarations[j]) == i
  {
    assert SameDeclaration(children[i].declaration, declarations[j]);
  }

  /** One step down the declared tree. */
  ghost predicate EdgeAccepted(loads: Loader, agent: ResolvedAgent, session: Session, declaration: Declaration, child: DeclaredChild,
                               ancestry: seq<Edge>, identities: seq<AgentIdentity>) {
    && ChildInOrder(loads, agent, session, declaration, child, ancestry, identities)
    && TreeAccepted(loads, child.agent, child.session, child.children, ChildAncestry(agent, declaration, child, ancestry),
                    identities + [(declaration.packageName, declaration.resolvedDigest)])
  }

  predicate AllSupplied(declarations: seq<Declaration>, children: seq<DeclaredChild>) {
    forall i | 0 <= i < |declarations| :: Supplied(children, declarations[i])
  }

  /** The edge to the child supplied for one declaration is accepted. */
  ghost predicate AcceptedAt(loads: Loader, agent: ResolvedAgent, session: Session, children: seq<DeclaredChild>,
                             ancestry: seq<Edge>, identities: seq<AgentIdentity>, j: nat)
    requires j < |agent.declarations| && AllSupplied(agent.declarations, children)
  {
    EdgeAccepted(loads, agent, session, agent.declarations[j], children[Locate(children, agent.declarations[j])], ancestry, identities)
  }

  lemma OneMoreAccepted(loads: Loader, agent: ResolvedAgent, session: Session, children: seq<DeclaredChild>,
                        ancestry: seq<Edge>, identities: seq<AgentIdentity>, n: nat)
    requires 0 < n <= |agent.declarations| && AllSupplied(agent.declarations, children)
    ensures ChildrenAccepted(loads, agent, session, children, ancestry, identities, n) <==>
            && ChildrenAccepted(loads, agent, session, children, ancestry, identities, n - 1)
            && AcceptedAt(loads, agent, session, children, ancestry, identities, n - 1)
  {
    hide ChildInOrder, TreeAccepted, Supplied;
  }

  ghost predicate AcceptedUpTo(loads: Loader, agent: ResolvedAgent, session: Session, children: seq<DeclaredChild>,
                               ancestry: seq<Edge>, identities: seq<AgentIdentity>, n: nat)
    requires n <= |agent.declarations| && AllSupplied(agent.declarations, children)
  {
    forall j | 0 <= j < n :: AcceptedAt(loads, agent, session, children, ancestry, identities, j)
  }

  lemma OneFurther(loads: Loader, agent: ResolvedAgent, session: Session, children: seq<DeclaredChild>,
                   ancestry: seq<Edge>, identities: seq<AgentIdentity>, n: nat)
    requires 0 < n <= |agent.declarations| && AllSupplied(agent.declarations, children)
    ensures AcceptedUpTo(loads, agent, session, children, ancestry, identities, n) <==>
            && AcceptedUpTo(loads, agent, session, children, ancestry, identities, n - 1)
            && AcceptedAt(loads, agent, session, children, ancestry, identities, n - 1)
  {
    hide AcceptedAt, AllSupplied;
  }

  lemma NoneAccepted(loads: Loader, agent: ResolvedAgent, session: Session, children: seq<DeclaredChild>,
                     ancestry: seq<Edge>, identities: seq<AgentIdentity>)
    requires AllSupplied(agent.declarations, children)
    ensures ChildrenAccepted(loads, agent, session, children, ancestry, identities, 0)
    ensures AcceptedUpTo(loads, agent, session, children, ancestry, identities, 0)
  {}

  lemma {:induction false} EachAccepted(loads: Loader, agent: ResolvedAgent, session: Session, children: seq<DeclaredChild>,
                                        ancestry: seq<Edge>, identities: seq<AgentIdentity>, n: nat)
    requires n <= |agent.declarations| && AllSupplied(agent.declarations, children)
    ensures ChildrenAccepted(loads, agent, session, children, ancestry, identities, n) <==>
            AcceptedUpTo(loads, agent, session, children, ancestry, identities, n)
    decreases n
  {
    hide AllSupplied, Supplied, AcceptedAt, ChildrenAccepted, AcceptedUpTo;
    if n == 0 {
      NoneAccepted(loads, agent, session, children, ancestry, identities);
    } else {
      EachAccepted(loads, agent, session, children, ancestry, identities, n - 1);
      OneMoreAccepted(loads, agent, session, children, ancestry, identities, n);
      OneFurther(loads, agent, session, children, ancestry, identities, n);
    }
  }

  lemma TreeAcceptedUnfolds(loads: Loader, agent: ResolvedAgent, session: Session, children: seq<DeclaredChild>,
                            ancestry: seq<Edge>, identities: seq<AgentIdentity>)
    ensures TreeAccepted(loads, agent, session, children, ancestry, identities) <==>
            && OneToOne(agent.declarations, children)
            && forall i, j | 0 <= i < |children| && 0 <= j < |agent.declarations| && For(agent.declarations[j], children[i]) ::
                 EdgeAccepted(loads, agent, session, agent.declarations[j], children[i], ancestry, identities)
  {
    CorrespondsExactly(agent.declarations, children);
    hide EdgeAccepted, OneToOne, ChildrenAccepted;
    if Corresponds(agent.declarations, children) {
      EachAccepted(loads, agent, session, children, ancestry, identities, |agent.declarations|);
      EveryEdge(loads, agent, session, children, ancestry, identities);
    }
  }

  ghost predicate EdgeAndTreeLawful(loads: Loader, agent: ResolvedAgent, session: Session, declaration: Declaration, child: DeclaredChild,
                                    ancestry: seq<Edge>, identities: seq<AgentIdentity>) {
    && EdgeLawful(loads, agent, session, declaration, child, ancestry, identities)
    && TreeLawful(loads, child.agent, child.session, child.children, ChildAncestry(agent, declaration, child, ancestry),
                  identities + [(declaration.packageName, declaration.resolvedDigest)])
  }

  lemma TreeLawfulUnfolds(loads: Loader, agent: ResolvedAgent, session: Session, children: seq<DeclaredChild>,
                          ancestry: seq<Edge>, identities: seq<AgentIdentity>)
    ensures TreeLawful(loads, agent, session, children, ancestry, identities) <==>
            && OneToOne(agent.declarations, children)
            && forall i, j | 0 <= i < |children| && 0 <= j < |agent.declarations| && For(agent.declarations[j], children[i]) ::
                 EdgeAndTreeLawful(loads, agent, session, agent.declarations[j], children[i], ancestry, identities)
  {
    hide EdgeLawful, OneToOne, ChildAncestry;
  }

  /** A declared tree is accepted exactly when every edge of it is lawful. */
  lemma {:induction false} TreeAcceptedExactly(loads: Loader, agent: ResolvedAgent, session: Session, children: seq<DeclaredChild>,
                                               ancestry: seq<Edge>, identities: seq<AgentIdentity>)
    ensures TreeAccepted(loads, agent, session, children, ancestry, identities)
       <==> TreeLawful(loads, agent, session, children, ancestry, identities)
    decreases children
  {
    TreeAcceptedUnfolds(loads, agent, session, children, ancestry, identities);
    TreeLawfulUnfolds(loads, agent, session, children, ancestry, identities);
    hide ChildInOrder, EdgeLawful, OneToOne, TreeAccepted, TreeLawful, For;
    forall i, j | 0 <= i < |children| && 0 <= j < |agent.declarations| && For(agent.declarations[j], children[i])
      ensures EdgeAccepted(loads, agent, session, agent.declarations[j], children[i], ancestry, identities) <==>
              EdgeAndTreeLawful(loads, agent, session, agent.declarations[j], children[i], ancestry, identities)
    {
      ChildInOrderExactly(loads, agent, session, agent.declarations[j], children[i], ancestry, identities);
      TreeAcceptedExactly(loads, children[i].agent, children[i].session, children[i].children,
                          ChildAncestry(agent, agent.declarations[j], children[i], ancestry),
                          identities + [(agent.declarations[j].packageName, agent.declarations[j].resolvedDigest)]);
    }
    hide EdgeAccepted, EdgeAndTreeLawful;
  }

  /** Accepted edges by declaration are accepted edges by child. */
  lemma EveryEdge(loads: Loader, agent: ResolvedAgent, session: Session, children: seq<DeclaredChild>,
                  ancestry: seq<Edge>, identities: seq<AgentIdentity>)
    requires Corresponds(agent.declarations, children)
    ensures (forall j | 0 <= j < |agent.declarations| :: AcceptedAt(loads, agent, session, children, ancestry, identities, j))
       <==> (forall i, j | 0 <= i < |children| && 0 <= j < |agent.declarations| && For(agent.declarations[j], children[i]) ::
               EdgeAccepted(loads, agent, session, agent.declarations[j], children[i], ancestry, identities))
  {
    hide EdgeAccepted;
    forall j | 0 <= j < |agent.declarations|
      ensures For(agent.declarations[j], children[Locate(children, agent.declarations[j])])
      ensures AcceptedAt(loads, agent, session, children, ancestry, identities, j) <==>
              EdgeAccepted(loads, agent, session, agent.declarations[j], children[Locate(children, agent.declarations[j])], ancestry, identities)
    {
      assert SameDeclaration(children[Locate(children, agent.declarations[j])].declaration, agent.declarations[j]);
    }
    forall i, j | 0 <= i < |children| && 0 <= j < |agent.declarations| && For(agent.declarations[j], children[i])
      ensures AcceptedAt(loads, agent, session, children, ancestry, identities, j) <==>
              EdgeAccepted(loads, agent, session, agent.declarations[j], children[i], ancestry, identities)
    {
      LocatesTheChild(agent.declarations, children, i, j);
    }
    hide AcceptedAt, Locate;
  }

  // ---------------------------------------------------------------- what is prepared

  /** The prepared tree has, for each declaration in order, the supplied child with its own session and requested ancestry. */
  ghost predicate Mirrors(prepared: PreparedAgent, agent: ResolvedAgent, session: Session, children: seq<DeclaredChild>, ancestry: seq<Edge>)
    decreases children
  {
    && prepared.packageName == agent.packageName && prepared.session == session && prepared.ancestry == ancestry
    && |prepared.children| == |agent.declarations|
    && forall i, j | 0 <= i < |children| && 0 <= j < |agent.declarations| && For(agent.declarations[j], children[i]) ::
         Mirrors(prepared.children[j], children[i].agent, children[i].session, children[i].children, children[i].request.ancestry)
  }

  lemma {:induction false} PreparedAt(loads: Loader, agent: ResolvedAgent, session: Session, children: seq<DeclaredChild>,
                                      ancestry: seq<Edge>, identities: seq<AgentIdentity>, n: nat, j: nat)
    requires j < n <= |agent.declarations| && AllSupplied(agent.declarations, children)
    requires ChildrenAccepted(loads, agent, session, children, ancestry, identities, n)
    ensures AcceptedAt(loads, agent, session, children, ancestry, identities, j)
    ensures
      var declaration := agent.declarations[j];
      var child := children[Locate(children, declaration)];
      PreparedChildren(loads, agent, session, children, ancestry, identities, n)[j] ==
      Prepared(loads, child.agent, child.session, child.children, ChildAncestry(agent, declaration, child, ancestry),
               identities + [(declaration.packageName, declaration.resolvedDigest)])
    decreases n
  {
    hide ChildInOrder, TreeAccepted, Prepared, Supplied, ChildAncestry;
    OneMoreAccepted(loads, agent, session, children, ancestry, identities, n);
    if j < n - 1 {
      PreparedAt(loads, agent, session, children, ancestry, identities, n - 1, j);
    }
  }

  /** What is prepared mirrors what was declared, at every depth. */
  lemma {:induction false} PreparedMirrors(loads: Loader, agent: ResolvedAgent, session: Session, children: seq<DeclaredChild>,
                                           ancestry: seq<Edge>, identities: seq<AgentIdentity>)
    requires TreeAccepted(loads, agent, session, children, ancestry, identities)
    ensures Mirrors(Prepared(loads, agent, session, children, ancestry, identities), agent, session, children, ancestry)
    decreases children
  {
    var prepared := Prepared(loads, agent, session, children, ancestry, identities);
    hide Locate, PreparedChildren, ChildAncestry, InputsMatch, ChildAccepted, For, Mirrors, Supplied;
    forall i, j | 0 <= i < |children| && 0 <= j < |agent.declarations| && For(agent.declarations[j], children[i])
      ensures Mirrors(prepared.children[j], children[i].agent, children[i].session, children[i].children, children[i].request.ancestry)
    {
      LocatesTheChild(agent.declarations, children, i, j);
      PreparedAt(loads, agent, session, children, ancestry, identities, |agent.declarations|, j);
      PreparedMirrors(loads, children[i].agent, children[i].session, children[i].children,
                      ChildAncestry(agent, agent.declarations[j], children[i], ancestry),
                      identities + [(agent.declarations[j].packageName, agent.declarations[j].resolvedDigest)]);
    }
    MirrorsUnfolds(prepared, agent, session, children, ancestry);
  }

  lemma MirrorsUnfolds(prepared: PreparedAgent, agent: ResolvedAgent, session: Session, children: seq<DeclaredChild>, ancestry: seq<Edge>)
    requires prepared.packageName == agent.packageName && prepared.session == session && prepared.ancestry == ancestry
    requires |prepared.children| == |agent.declarations|
    requires forall i, j | 0 <= i < |children| && 0 <= j < |agent.declarations| && For(agent.declarations[j], children[i]) ::
               Mirrors(prepared.children[j], children[i].agent, children[i].session, children[i].children, children[i].request.ancestry)
    ensures Mirrors(prepared, agent, session, children, ancestry)
  {
    hide For;
  }

  // ---------------------------------------------------------------- what no declaration delegated, no descendant holds

  /** Below this agent every session's grants are named in every set delegated above it, and answer a requirement of their agent. */
  ghost predicate DelegatedThroughout(agent: ResolvedAgent, children: seq<DeclaredChild>, delegated: seq<set<string>>)
    decreases children
  {
    forall i, j | 0 <= i < |children| && 0 <= j < |agent.declarations| && For(agent.declarations[j], children[i]) ::
      var child, names := children[i], delegated + [agent.declarations[j].delegated];
      && (forall k, n | 0 <= k < |child.session.grants| && 0 <= n < |names| :: child.session.grants[k].capability.name in names[n])
      && (forall k | 0 <= k < |child.session.grants| ::
            exists r :: 0 <= r < |child.agent.requirements| && NarrowsRequirement(child.session.grants[k], child.agent.requirements[r]))
      && (forall r | 0 <= r < |child.agent.requirements| && child.agent.requirements[r].required ::
            exists k :: 0 <= k < |child.session.grants| && child.session.grants[k].capability == child.agent.requirements[r].descriptor.identity)
      && DelegatedThroughout(child.agent, child.children, names)
  }

  predicate NamedInAll(grants: seq<Grant>, delegated: seq<set<string>>) {
    forall k, n | 0 <= k < |grants| && 0 <= n < |delegated| :: grants[k].capability.name in delegated[n]
  }

  lemma EdgeKeepsNames(loads: Loader, agent: ResolvedAgent, session: Session, declaration: Declaration, child: DeclaredChild,
                       ancestry: seq<Edge>, identities: seq<AgentIdentity>, delegated: seq<set<string>>)
    requires EdgeLawful(loads, agent, session, declaration, child, ancestry, identities) && NamedInAll(session.grants, delegated)
    ensures NamedInAll(child.session.grants, delegated + [declaration.delegated])
  {
    forall k, n | 0 <= k < |child.session.grants| && 0 <= n < |delegated| + 1
      ensures child.session.grants[k].capability.name in (delegated + [declaration.delegated])[n]
    {
      if n < |delegated| {
        var i :| 0 <= i < |session.grants| && NarrowsGrant(child.session.grants[k], session.grants[i]);
        assert session.grants[i].capability.name in delegated[n];
      }
    }
  }

  lemma EdgeMeetsRequirements(loads: Loader, agent: ResolvedAgent, session: Session, declaration: Declaration, child: DeclaredChild,
                              ancestry: seq<Edge>, identities: seq<AgentIdentity>)
    requires EdgeLawful(loads, agent, session, declaration, child, ancestry, identities)
    ensures forall k | 0 <= k < |child.session.grants| ::
              exists r :: 0 <= r < |child.agent.requirements| && NarrowsRequirement(child.session.grants[k], child.agent.requirements[r])
    ensures forall r | 0 <= r < |child.agent.requirements| && child.agent.requirements[r].required ::
              exists k :: 0 <= k < |child.session.grants| && child.session.grants[k].capability == child.agent.requirements[r].descriptor.identity
  {
    hide NarrowsRequirement, NarrowsGrant, ExtendsPath;
  }

  lemma {:induction false} LawfulTreesDelegate(loads: Loader, agent: ResolvedAgent, session: Session, children: seq<DeclaredChild>,
                                               ancestry: seq<Edge>, identities: seq<AgentIdentity>, delegated: seq<set<string>>)
    requires TreeLawful(loads, agent, session, children, ancestry, identities) && NamedInAll(session.grants, delegated)
    ensures DelegatedThroughout(agent, children, delegated)
    decreases children
  {
    hide EdgeLawful, OneToOne, NarrowsRequirement;
    forall i, j | 0 <= i < |children| && 0 <= j < |agent.declarations| && For(agent.declarations[j], children[i])
      ensures
        var child, names := children[i], delegated + [agent.declarations[j].delegated];
        NamedInAll(child.session.grants, names) && DelegatedThroughout(child.agent, child.children, names)
      ensures forall k | 0 <= k < |children[i].session.grants| ::
                exists r :: 0 <= r < |children[i].agent.requirements| && NarrowsRequirement(children[i].session.grants[k], children[i].agent.requirements[r])
      ensures forall r | 0 <= r < |children[i].agent.requirements| && children[i].agent.requirements[r].required ::
                exists k :: 0 <= k < |children[i].session.grants|
                            && children[i].session.grants[k].capability == children[i].agent.requirements[r].descriptor.identity
    {
      var declaration, child := agent.declarations[j], children[i];
      EdgeKeepsNames(loads, agent, session, declaration, child, ancestry, identities, delegated);
      EdgeMeetsRequirements(loads, agent, session, declaration, child, ancestry, identities);
      LawfulTreesDelegate(loads, child.agent, child.session, child.children, ChildAncestry(agent, declaration, child, ancestry),
                          identities + [(declaration.packageName, declaration.resolvedDigest)], delegated + [declaration.delegated]);
    }
  }

  /**
   In every accepted tree, at any depth, a session only holds capabilities whose names every declaration on its
   path delegated; each of its grants answers a requirement of its agent, and each required one is granted.
   */
  lemma DescendantsHoldOnlyWhatIsDelegated(loads: Loader, agent: ResolvedAgent, root: Session, children: seq<DeclaredChild>)
    requires TreeAccepted(loads, agent, root, children, [], [(agent.packageName, agent.resolvedDigest)])
    ensures DelegatedThroughout(agent, children, [])
  {
    hide TreeAccepted;
    TreeAcceptedExactly(loads, agent, root, children, [], [(agent.packageName, agent.resolvedDigest)]);
    LawfulTreesDelegate(loads, agent, root, children, [], [(agent.packageName, agent.resolvedDigest)], []);
  }
}
