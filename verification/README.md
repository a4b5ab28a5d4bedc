# Verified model of the provider runtime

Kiteframe lets an agent invoke effectful capabilities through a provider. The provider admits a session once,
narrowing what was requested to what six authority planes allow, and then runs each effect under a durable protocol:
reserve, write the authorization ahead, claim, execute, audit, settle. Child agents get narrowed copies of their
parent's authority. This project models that machinery and proves what it is for.

| file | models |
|---|---|
| `selectors.dfy`, `selector_texts.dfy` | resource selectors: parsing, subset, intersection, the prefix order, and which texts parse |
| `contract.dfy`, `permissions.dfy` | grants and requirements, and what a grant permits |
| `authority.dfy`, `authority_answers.dfy` | `intersect_authority` as the exact meet, and when it gives a grant, nothing or a conflict |
| `admission.dfy`, `admission_service.dfy`, `admission_answers.dfy`, `admission_wildcards.dfy` | admission over six planes, what it answers from the backend's answers and the planes, its final check, and loading |
| `point_of_use.dfy` | the point-of-use checks up to dispatch, field by field |
| `invocation_records.dfy`, `invocation_retention.dfy`, `invocation_recovery.dfy`, `invocation_answers.dfy`, `invocation_stores.dfy` | the invocation table, its operations and invariants over every run, retention, what recovery costs, what each call answers, and the in-memory and SQLite stores as objects |
| `effect_protocol.dfy`, `effect_safety.dfy`, `effect_retention.dfy`, `effect_answers.dfy`, `effect_counterexample.dfy`, `effect_service.dfy` | `execute_effect` and `persist_suspension` as interleaved atomic steps, the safety theorems, how long settled records stay, where the guarantees end, and the same code as methods whose runs are runs of those steps |
| `resume_tokens.dfy` | pending suspensions and the leases of resumes in flight |
| `audit_ledger.dfy`, `audit_linkage.dfy`, `audit_records.dfy`, `audit_answers.dfy` | the hash-chained audit ledger, read back byte by byte, the link from outcomes to authorizations, the two records the service writes, and what an append accepts |
| `delegation.dfy`, `delegation_limits.dfy` | narrowing of child agents, one edge and the whole declared tree, and what an accepted tree amounts to |
| `yaml_scanner.dfy` | the streaming YAML limit scanner against a recursive condition on document trees |
| `package_digest.dfy` | the Merkle digest of a package tree |
| `outcomes.dfy`, `text.dfy`, `bytes.dfy` | shared result types, text tests and byte strings |

Conventions. A vector that the source sorts and deduplicates on construction is a set. Clocks, the authorization
backend, record IDs, SHA-256, JSON text and canonicalisation are parameters, so every theorem holds for all of them.
SHA-256 is never assumed injective, which no function into 32 bytes is: where a digest commits to something, the
hypothesis is that it does not collide on the byte strings that were actually hashed. Error messages are reduced to
one constructor per kind of refusal. Functions specify, methods follow the source's statements and loops and are proved
equal to them, and lemmas state what the source promises about them. The `_answers` and `_limits` files state each
operation's answer on its inputs, without the specification functions, and prove the two the same.

Where the code falls short of a natural claim, the model keeps the code, shows the failing case and proves when the
claim holds:

- permuting the terms of an authority intersection can change `None` into a conflict, exactly when a malformed selector
  meets terms that already empty the intersection (`Authority.OrderMattersExactly`, `Authority.OrderMattersForExample`);
- admission narrows by segments but its final check compares prefixes, so a requested wildcard that is not a final `:*`
  can make an admission fail after everything was granted (`AdmissionWildcards.FinalCheckIsSafeExactly`);
- the transition table permits Pending to Suspended, which the service never issues; with it an effect can execute
  twice, and whatever other kinds of transition are issued it cannot (`EffectCounterexample.AtMostOnceExactly`,
  `EffectCounterexample.ReopenedRecordsExecute`, `EffectCounterexample.ReopeningAllowsSecondExecution`);
- after a crash between reservation and authorization, SQLite can end with a succeeded effect that links to no
  authorization (`InvocationRecovery.SucceededWithoutAuthorization`); over whole runs that cannot happen exactly when no
  recovery finds a Reserved record (`InvocationRecovery.AuthorizationSurvivesExactly`);
- a ledger entry numbered 2^64 - 1 is written but never reads back (`AuditLedger.RoundTrip`);
- a suspension may be stored on another record than that of its idempotency key, exactly when the record of the key was
  found under another invocation ID; the request digest, which covers the ID, rules that out unless SHA-256 collides
  (`EffectService.EffectService.PersistSuspension`);
- an outcome-unknown answer may leave a record behind that fences nothing, exactly when the task's settling transition to
  Succeeded or Failed was applied and only its reply was lost (`EffectSafety.UnknownAnswersFenceExactly`,
  `EffectCounterexample.UnknownAnswerOverSettledRecord`).

## Model

| member | source | states |
|---|---|---|
| ResourceSelectors.ParseSelector | crates/kiteframe-provider/src/resource.rs:8-42 | the character loop computes the specified parse, with the same refusals in the same order |
| ResourceSelectors.RenderSelector | crates/kiteframe-provider/src/resource.rs:44-51 | the loop renders a well-formed selector |
| ResourceSelectors.ParseIsInverseOfRender | crates/kiteframe-provider/src/resource.rs:7-52 | a text parses as a selector if and only if the selector is well formed and renders to that text |
| SelectorTexts.ParsesExactly | crates/kiteframe-provider/src/resource.rs:8-42 | which texts parse and why the others do not: a placeholder, then nothing between two separators or at an end, then a wildcard that shares its segment |
| ResourceSelectors.ValidateConcrete | crates/kiteframe-provider/src/resource.rs:54-60 | accepts exactly the texts that denote one resource, namely themselves |
| SelectorTexts.ConcreteExactly | crates/kiteframe-provider/src/resource.rs:54-60 | a text is concrete exactly when it parses and has no wildcard character |
| ResourceSelectors.DenotesIsMatching | crates/kiteframe-provider/src/resource.rs:62-76 | filling the wildcards of a selector gives a resource exactly when the resource is concrete and passes the subset test |
| ResourceSelectors.SubsetIsInclusion | crates/kiteframe-provider/src/resource.rs:62-76 | the subset test holds exactly when the candidate parses and its set of concrete resources is included in the allowed one's |
| ResourceSelectors.SubsetTransitive | crates/kiteframe-provider/src/resource.rs:62-76 | the subset test is transitive |
| ResourceSelectors.IntersectResourceSelectors | crates/kiteframe-provider/src/resource.rs:78-101 | the loop returns the specified meet, None when segments disagree, or the first parse error |
| ResourceSelectors.IntersectIsGreatestLowerBound | crates/kiteframe-provider/src/resource.rs:78-101 | a selector is a subset of both arguments exactly when the intersection exists and it is a subset of that |
| ResourceSelectors.IntersectIsExact | crates/kiteframe-provider/src/resource.rs:78-101 | the result is well formed and denotes exactly the common resources; None exactly when there are none |
| ResourceSelectors.WithinPrefixTransitive | crates/kiteframe-contract/src/service.rs:771-776 | the prefix order on selectors is transitive |
| ResourceSelectors.SegmentOrderImpliesPrefixOrder | crates/kiteframe-contract/src/service.rs:771-776 | for one allowed selector the segment order implies the prefix order exactly when its only wildcard is a final `:*` |
| Authority.IsSubsetOfTransitive | crates/kiteframe-provider/src/authority.rs:140-162 | the order on grants is transitive |
| Authority.IntersectResourceSets | crates/kiteframe-provider/src/authority.rs:164-185 | the nested loops return all pairwise meets, or the malformed-selector conflict |
| Authority.IntersectAuthority | crates/kiteframe-provider/src/authority.rs:39-134 | the passes over resources, modes, effect, expiry, evidence, freshness and preconditions compute the specified intersection, with the same precedence of None and conflict |
| Authority.ResultIsBelowEveryTerm | crates/kiteframe-provider/src/authority.rs:39-162 | whatever is returned is a subset of every Allow term and narrows the requirement; a deny or another capability among the terms gives nothing |
| Authority.IntersectionIsGreatestLowerBound | crates/kiteframe-provider/src/authority.rs:39-162 | for well-formed selectors a valid grant lies below the requirement and all terms exactly when a grant is returned and it lies below that |
| Authority.ResultDenotesTheIntersection | crates/kiteframe-provider/src/authority.rs:66-82 | the returned resources denote a resource exactly when the requirement and every term denote it |
| Authority.AddingATermNarrows | crates/kiteframe-provider/src/authority.rs:39-134 | with one more term any grant returned is a subset of the one returned without it |
| Authority.ResultIsValid | crates/kiteframe-provider/src/authority.rs:114-133 | a returned grant has resources, modes and no blank selector |
| AuthorityAnswers.SubsetGrantIsInclusion | crates/kiteframe-provider/src/authority.rs:140-162 | for a grant that permits anything, being a subset is exactly permitting no use and covering no selector the other does not, and keeping its preconditions |
| AuthorityAnswers.NarrowingRequirementIsInclusion | crates/kiteframe-provider/src/authority.rs:65-133 | what it means for a grant to narrow a requirement: exactly to cover no selector and permit no use the requirement does not ask for, and to keep its preconditions |
| AuthorityAnswers.IntersectionAnswers | crates/kiteframe-provider/src/authority.rs:39-134 | for well-formed selectors: nothing exactly when a term denies, none applies, or no resource or mode is common; a conflict exactly when otherwise two demand different evidence of one kind; else a grant |
| Authority.OrderMattersExactly | crates/kiteframe-provider/src/authority.rs:65-82 | some permutation of the terms changes the result if and only if a malformed term meets well-formed ones that already empty the intersection |
| Authority.OrderMattersForExample | crates/kiteframe-provider/src/authority.rs:65-82 | for a requirement of `a`, a term for `b` and a malformed term give None in one order and a conflict in the other |
| Admission.CheckDynamically | crates/kiteframe-provider/src/admission.rs:403-424 | resources are asked about in order; the first refusal or failed call decides |
| Admission.AdmitOne | crates/kiteframe-provider/src/admission.rs:372-401 | collects the terms of all six planes, adds the request boundary and intersects; a silent or missing plane gives None |
| Admission.ValidateRequestLocks | crates/kiteframe-provider/src/admission.rs:344-370 | succeeds exactly when every requirement's lock is the registry's and identities are unique, and returns them by identity |
| AdmissionAnswers.DynamicallyExactly | crates/kiteframe-provider/src/admission.rs:403-424 | allowed exactly when the backend allows every resource; otherwise the first other answer decides, as a refusal or a failed call |
| AdmissionAnswers.AdmittedGrantIsGreatest | crates/kiteframe-provider/src/admission.rs:372-401 | for well-formed selectors a valid grant lies within every plane, the requirement and the request exactly when a grant is admitted and it lies within that one |
| AdmissionAnswers.CollectExactly | crates/kiteframe-provider/src/admission.rs:249-290 | the loop succeeds exactly when no requirement ends the call, and has then collected exactly the granted grants and the refused optional capabilities |
| AdmissionAnswers.CollectFailsAt | crates/kiteframe-provider/src/admission.rs:249-290 | otherwise the first requirement that ends the call gives its error |
| AdmissionAnswers.AdmitChecksFirst | crates/kiteframe-provider/src/admission.rs:232-257 | catalog, locks, mapping and current revisions are checked first, in this order and with these errors |
| AdmissionAnswers.AdmitSucceedsExactly | crates/kiteframe-provider/src/admission.rs:232-320 | an admission succeeds exactly when those checks pass, no requirement ends it and the grants lie under the requested prefixes |
| AdmissionAnswers.GrantedOnlyWhatTheBackendAllows | crates/kiteframe-provider/src/admission.rs:258-289 | a capability is granted only if the backend allowed every resource requested for it |
| AdmissionAnswers.RefusedRequiredFailsTheCall | crates/kiteframe-provider/src/admission.rs:258-281 | when a required capability is reached and the backend refuses it, the call is denied |
| AdmissionAnswers.RefusedOptionalIsDenied | crates/kiteframe-provider/src/admission.rs:258-289 | an optional capability the backend refuses is among the denials |
| AdmissionAnswers.IssuedFor | crates/kiteframe-provider/src/admission.rs:291-319 | an issued grant set names the request, its parties, the catalog, the current revisions and the service's validity period |
| AdmissionService.AdmittedGrantIsWithin | crates/kiteframe-provider/src/admission.rs:372-401 | an admitted grant is a subset of every term of every plane for its capability, of the request boundary and of the requirement |
| AdmissionService.CollectIsOk | crates/kiteframe-provider/src/admission.rs:249-290 | after any number of requirements each has one grant or one denial, each required one a grant, and every grant is within every plane |
| AdmissionService.CollectedPartitions | crates/kiteframe-provider/src/admission.rs:249-290 | grants and denials partition the requested capabilities, with every required one granted |
| AdmissionService.FinalCheckDecidesPrefixes | crates/kiteframe-contract/src/service.rs:1185-1278 | assembling never fails, and `validate_against` accepts exactly when the granted resources lie under requested prefixes |
| AdmissionService.FinalCheckNeverRejects | crates/kiteframe-provider/src/admission.rs:291-311 | if requested selectors use a wildcard only as a final `:*`, the final check never rejects the assembled set |
| AdmissionWildcards.OtherWildcardIsRejected | crates/kiteframe-contract/src/service.rs:1246-1253 | for every other wildcard selector there is a service and a request that pass everything but the final check |
| AdmissionWildcards.FinalCheckIsSafeExactly | crates/kiteframe-contract/src/service.rs:1246-1253 | the final check can never reject a request for one selector if and only if its only wildcard is a final `:*` |
| AdmissionService.AdmittedIsPersistable | crates/kiteframe-provider/src/admission.rs:291-319 | what is persisted has unique grants, each narrowing its lock and within every plane |
| AdmissionService.AdmissionService.constructor | crates/kiteframe-provider/src/admission.rs:145-222 | a service starts valid and empty |
| AdmissionService.AdmissionService.AdmitRequirement | crates/kiteframe-provider/src/admission.rs:258-289 | one turn of the loop: a required refusal aborts, an optional one is recorded as denied, any other error propagates |
| AdmissionService.AdmissionService.CollectAll | crates/kiteframe-provider/src/admission.rs:249-290 | the loop computes the specified collection and stops at the first error |
| AdmissionService.AdmissionService.Admit | crates/kiteframe-provider/src/admission.rs:232-320 | the whole call; success persists exactly this admission under its ID and digest, failure changes nothing, and the result partitions the request |
| AdmissionService.PersistedLoads | crates/kiteframe-provider/src/invocation.rs:36-60 | every persisted admission passes the checks of `InvocationAdmission::try_new` |
| AdmissionService.TryNewInvocationAdmission | crates/kiteframe-provider/src/invocation.rs:36-60 | succeeds exactly when every grant is locked and narrows its lock |
| AdmissionService.AdmissionService.Load | crates/kiteframe-provider/src/admission.rs:434-446 | returns exactly the persisted admission of that ID and digest |
| AdmissionService.CheckGrant | crates/kiteframe-provider/src/invocation.rs:446-708 | the point-of-use checks on grant, lock, freshness, resource, times and decision, in order, accept exactly the permitted dispatches |
| AdmissionService.AdmissionService.CheckPointOfUse | crates/kiteframe-provider/src/invocation.rs:446-708 | accepts exactly what is persisted and permitted, and then every plane allows the dispatched resource |
| AdmissionService.DispatchIsWithinEveryPlane | crates/kiteframe-provider/src/invocation.rs:1708-1787 | a dispatched resource is concrete, denoted by every Allow term of all six planes for its capability, denied by none, with effect within and expiry beyond each term at dispatch |
| PointOfUse.DispatchesExactly | crates/kiteframe-provider/src/invocation.rs:446-708 | an operation may be dispatched exactly when a persisted grant allows its mode and effect and denotes the resource, nothing has expired or gone stale, and the decision is an allowance under the current revisions, in time, for the resource |
| PointOfUse.NarrowingALockIsInclusion | crates/kiteframe-provider/src/invocation.rs:1590-1668 | a grant narrows its lock exactly when it permits nothing the locked capability does not |
| PointOfUse.LoadsExactly | crates/kiteframe-provider/src/invocation.rs:36-60 | an admission loads exactly when every grant is for a locked capability and permits nothing that one does not |
| InvocationRecords.SwapKeepsHistory | crates/kiteframe-provider/src/status.rs:995-1025 | a compare-and-swap keeps the shape, times and distinctness of the audit links, what each state says about them, and the reservation; it never makes a resolved record fence again |
| InvocationRecords.EveryRunKeepsInv | crates/kiteframe-provider/src/status.rs:954-1147 | over every sequence of calls by any caller, with recovery: scopes exclusive, IDs unique, links Authorization* then at most two Outcomes, in time order, distinct and fitting the state |
| InvocationRecords.RecoverKeepsInv | crates/kiteframe-provider-sqlite/src/lib.rs:104-127 | recovery keeps those invariants |
| InvocationRetention.CallKeepsStored | crates/kiteframe-provider/src/status.rs:954-993 | one call drops a reservation only after its deadline, and never one that still fences its scope |
| InvocationRetention.SuccessiveRecordsAreApart | crates/kiteframe-provider/src/status.rs:594-653 | with a clock that never moves back, two records created for one key are at least the locked retention apart, without overflow |
| InvocationRetention.RetryFindsTheRecord | crates/kiteframe-provider/src/status.rs:954-993 | a retry before the deadline or while unresolved gets the same stored record exactly when context and digest match, and the right refusal otherwise |
| InvocationRecovery.RecoveryKeepsAuthorizationExactly | crates/kiteframe-provider-sqlite/src/lib.rs:104-127 | the in-memory invariant, by which Succeeded, Failed and OutcomeUnknown records all carry an authorization link, survives one recovery if and only if no record is Reserved |
| InvocationRecovery.RunKeepsAuthorization | crates/kiteframe-provider-sqlite/src/lib.rs:104-324 | a SQLite run in which no recovery finds a Reserved record keeps the whole in-memory invariant |
| InvocationRecovery.ReservedRecoveryLosesAuthorization | crates/kiteframe-provider-sqlite/src/lib.rs:104-127 | from every recovery in a run that finds a Reserved record, one reconciling call reaches a settled record without authorization |
| InvocationRecovery.AuthorizationSurvivesExactly | crates/kiteframe-provider-sqlite/src/lib.rs:104-324 | for every SQLite run: no recovery finds a Reserved record if and only if every Succeeded or Failed record is authorized, wherever the run is stopped and whatever calls short of another recovery follow |
| InvocationRecovery.SucceededWithoutAuthorization | crates/kiteframe-provider-sqlite/src/lib.rs:104-127 | a concrete SQLite run that ends Succeeded with an outcome link and no authorization link |
| InvocationAnswers.ReserveExactly | crates/kiteframe-provider/src/status.rs:954-993 | when a reservation is new, finds a record or is refused, with which answer, which record, and exactly which records a purge removes |
| InvocationAnswers.SettledKeysAreFreed | crates/kiteframe-provider/src/status.rs:954-993 | from its deadline on, a settled record's key can be reserved anew if its scope and the IDs are free |
| InvocationAnswers.TransitionsExactly | crates/kiteframe-provider/src/status.rs:1079-1147 | the fourteen transitions anyone can ask for, with what each links |
| InvocationAnswers.TransitExactly | crates/kiteframe-provider/src/status.rs:995-1025 | a compare-and-swap applies exactly to a record of the ID in the expected state, with a clock that has not moved back and an entry not yet linked, and moves that record only |
| InvocationAnswers.AbandonExactly | crates/kiteframe-provider/src/status.rs:1043-1066 | an abandonment applies exactly to an outcome-unknown record of the caller's context, and changes only it |
| InvocationAnswers.RecoverExactly | crates/kiteframe-provider-sqlite/src/lib.rs:104-127 | recovery makes Reserved and Pending records outcome-unknown, never earlier than they were, and touches no other |
| InvocationStores.InMemoryInvocationStore.constructor | crates/kiteframe-provider/src/status.rs:880-897 | the store starts empty |
| InvocationStores.InMemoryInvocationStore.ReserveOrGet | crates/kiteframe-provider/src/status.rs:954-993 | new table and reply are the specified reservation; a refusal after the purge keeps the purge |
| InvocationStores.InMemoryInvocationStore.Transition | crates/kiteframe-provider/src/status.rs:995-1025 | new table and reply are the specified compare-and-swap |
| InvocationStores.InMemoryInvocationStore.Status | crates/kiteframe-provider/src/status.rs:1027-1041 | returns the record of the ID to its own context only |
| InvocationStores.InMemoryInvocationStore.Abandon | crates/kiteframe-provider/src/status.rs:1043-1066 | new table and reply are the specified abandonment, one second later and saturating |
| InvocationStores.MemoryAbandonIgnoresClock | crates/kiteframe-provider/src/status.rs:1043-1066 | the in-memory abandonment does not depend on any clock |
| InvocationStores.SqliteInvocationStore.constructor | crates/kiteframe-provider-sqlite/src/lib.rs:46-70 | a new database is empty |
| InvocationStores.SqliteInvocationStore.RecoverIncompleteEffects | crates/kiteframe-provider-sqlite/src/lib.rs:104-127 | the one UPDATE makes every Reserved or Pending record outcome-unknown, or the database does not open |
| InvocationStores.SqliteInvocationStore.ReserveOrGet | crates/kiteframe-provider-sqlite/src/lib.rs:131-186 | on the joined tables the transaction is the specified reservation; a refusal rolls the purge back |
| InvocationStores.SqliteInvocationStore.Transition | crates/kiteframe-provider-sqlite/src/lib.rs:188-244 | the guarded UPDATE and the link INSERT together are the specified compare-and-swap |
| InvocationStores.SqliteInvocationStore.Status | crates/kiteframe-provider-sqlite/src/lib.rs:246-273 | row and links read together give the record to its own context only |
| InvocationStores.SqliteInvocationStore.Abandon | crates/kiteframe-provider-sqlite/src/lib.rs:275-324 | the guarded UPDATE is the specified abandonment |
| EffectSafety.EveryRunKeepsWorldInv | crates/kiteframe-provider/src/invocation.rs:724-1037 | every interleaving of invocations, resumes and suspensions, with lost replies, drops, recovery and other callers, keeps the protocol invariant |
| EffectSafety.AtMostOneExecution | crates/kiteframe-provider/src/invocation.rs:836-862 | over all such runs no reservation is executed twice |
| EffectSafety.AuthorizedBeforeExecution | crates/kiteframe-provider/src/invocation.rs:803-862 | before each execution its authorization entry is durable and linked on the record, the reservation has not been executed, and the record is stored unless others intervened |
| EffectSafety.SettledAnswersAgree | crates/kiteframe-provider/src/invocation.rs:859-956 | a Succeeded or Failed answer agrees with the record for as long as it is stored, whose last link is an outcome entry naming the authorization it ran under |
| EffectSafety.UnknownAnswersFenceExactly | crates/kiteframe-provider/src/invocation.rs:888-956 | while only the service and recovery act, an outcome-unknown answer leaves the record fencing its scope if and only if it is not a lost reply to a transition to Succeeded or Failed; then the record, while stored, has that state and ends with that outcome |
| EffectRetention.StepKeepsFinal | crates/kiteframe-provider/src/status.rs:954-993 | no step of anyone changes a Succeeded or Failed record, and only a reservation at or after its deadline removes it |
| EffectRetention.SettledRecordsStayForRetention | crates/kiteframe-provider/src/invocation.rs:859-956 | the record behind a Succeeded or Failed answer is stored for the rest of the run, or until a reservation at or after its deadline removed it |
| EffectAnswers.StoredAnswersAreStored | crates/kiteframe-provider/src/invocation.rs:1002-1037 | in any run, at the step after which a task answers that its suspension is stored, the record of its ID or of its key is so suspended |
| EffectCounterexample.UnknownAnswerOverSettledRecord | crates/kiteframe-provider/src/invocation.rs:923-950 | a concrete run of the service alone, on either backend, whose task answers outcome-unknown while its record is Succeeded and fences nothing |
| EffectCounterexample.LostReplyHidesSettlement | crates/kiteframe-provider/src/invocation.rs:923-950 | from every world in which a task has executed and its record is pending, a lost settling reply leads there |
| EffectCounterexample.AtMostOnceExactly | crates/kiteframe-provider/src/status.rs:1079-1108 | whatever kinds of transition other callers issue, no run executes a reservation twice if and only if Pending to Suspended is not among them |
| EffectCounterexample.ReopenedRecordsExecute | crates/kiteframe-provider/src/status.rs:1079-1108 | from every world, once a pending record has been returned to suspended, any resume of its request that the store considers executes its reservation, again if it had been executed |
| EffectCounterexample.ReopeningAllowsSecondExecution | crates/kiteframe-provider/src/status.rs:1079-1108 | a concrete run, on either backend, that executes one reservation twice |
| EffectService.EffectService.ExecuteEffect | crates/kiteframe-provider/src/invocation.rs:724-956 | the method's run is a run of the step system; from what the reservation found it determines whether the effect runs, the answer, and the record left; Succeeded and Failed are answered exactly as the operation ended and the record is stored, and are so answered whenever the settling swap applies |
| EffectService.EffectService.AuthorizeAndRun | crates/kiteframe-provider/src/invocation.rs:836-862 | from a reservation that may proceed: the effect runs exactly when its record is claimable, and is answered and left as specified |
| EffectService.EffectService.RecordOutcome | crates/kiteframe-provider/src/invocation.rs:863-956 | from an execution: answered as the operation ended and settled so if the outcome was appended and the clock has not moved back, otherwise given up on |
| EffectService.EffectService.PersistSuspension | crates/kiteframe-provider/src/invocation.rs:959-1037 | answers that the suspension is stored exactly when it already was or the record of the ID is Reserved and is suspended now; and exactly when the record of the key then holds it |
| ResumeTokens.EveryInterleavingConserves | crates/kiteframe-provider/src/invocation.rs:1093-1247 | over every interleaving a checkpoint is in flight exactly when a live lease for it exists, and then only one does |
| ResumeTokens.HeldExactlyOnce | crates/kiteframe-provider/src/invocation.rs:352-385 | a known checkpoint's suspension is in the map or in one lease, never both, and an unknown one's is nowhere |
| ResumeTokens.LeaseReturnsWhatItTook | crates/kiteframe-provider/src/invocation.rs:1215-1247 | whatever else interleaves, dropping a lease or finishing it retryably puts back exactly the suspension it took |
| ResumeTokens.BeginThenReturn | crates/kiteframe-provider/src/invocation.rs:1093-1122 | beginning and returning at once restores the map |
| ResumeTokens.BeginAnswers | crates/kiteframe-provider/src/invocation.rs:1093-1122 | a resume begins exactly on the waiting suspension itself; unknown, in-flight and different suspensions are refused as such |
| ResumeTokens.FinishedIsUsedUp | crates/kiteframe-provider/src/invocation.rs:1215-1237 | after a resume was answered or failed for good, whatever interleaves, none of its checkpoint begins until it is recorded or restored again |
| ResumeTokens.WaitsUntilBegun | crates/kiteframe-provider/src/invocation.rs:1093-1247 | whatever interleaves, a waiting suspension waits, and can be resumed, until a resume of it begins |
| ResumeTokens.PendingWasRegistered | crates/kiteframe-provider/src/invocation.rs:593-607 | over every interleaving, nothing is pending in the map or a lease that was not recorded or restored |
| ResumeTokens.RegistrationAnswers | crates/kiteframe-provider/src/invocation.rs:1194-1213 | recording succeeds exactly at an unknown checkpoint, restoring there or where the same suspension waits |
| ResumeTokens.SuspensionRegistry.constructor | crates/kiteframe-provider/src/invocation.rs:388-412 | no checkpoint is pending at first |
| ResumeTokens.SuspensionRegistry.BeginResume | crates/kiteframe-provider/src/invocation.rs:1093-1122 | hands out a lease and marks the checkpoint in flight, or refuses for the specified reason |
| ResumeTokens.SuspensionRegistry.FinishResume | crates/kiteframe-provider/src/invocation.rs:1215-1237 | consumes the lease; the checkpoint is forgotten unless the failure is retryable |
| ResumeTokens.SuspensionRegistry.DropLease | crates/kiteframe-provider/src/invocation.rs:378-385 | an unfinished lease restores its checkpoint, a finished one does nothing |
| ResumeTokens.SuspensionRegistry.RestoreDurableSuspension | crates/kiteframe-provider/src/invocation.rs:1194-1213 | inserts an absent checkpoint, accepts the same one, refuses any other state |
| ResumeTokens.SuspensionRegistry.RecordSuspension | crates/kiteframe-provider/src/invocation.rs:593-607 | inserts a new checkpoint and refuses a collision |
| AuditLedger.ValidateRecordLinkage | crates/kiteframe-audit/src/chain.rs:248-334 | the search and the comparison loop compute the specified linkage, reporting the first field that differs |
| AuditLedger.ReadAndVerify | crates/kiteframe-audit/src/chain.rs:179-246 | the loop over lines computes the specified verification |
| AuditLedger.AcceptedLinesFormAChain | crates/kiteframe-audit/src/chain.rs:199-246 | accepted lines decode to entries numbered from one, chained by hash and linked to earlier authorizations |
| AuditLedger.VerifiesExactlyChains | crates/kiteframe-audit/src/chain.rs:179-246 | a file of encoded entries verifies as them if and only if they form such a chain of fewer than 2^64 - 1 |
| AuditLedger.FileAuditLedger.constructor | crates/kiteframe-audit/src/chain.rs:27-38 | a new ledger has no partition files |
| AuditLedger.FileAuditLedger.VerifyPartition | crates/kiteframe-audit/src/chain.rs:49-63 | verifies the partition's file, and an absent file as empty |
| AuditLedger.FileAuditLedger.AppendSync | crates/kiteframe-audit/src/chain.rs:87-143 | appends the one specified line or leaves the file as it was; files of other partitions are untouched |
| AuditLedger.RoundTrip | crates/kiteframe-audit/src/chain.rs:87-246 | after any successful appends from empty, verification returns exactly those records, numbered and chained, until the entry numbered u64::MAX, which is written and fails on read-back |
| AuditLedger.TruncationIsDetectedOrAPrefix | crates/kiteframe-audit/src/chain.rs:183-198 | a verified file cut at any byte is rejected or verifies as a prefix |
| AuditLedger.PreimageInjective | crates/kiteframe-audit/src/chain.rs:336-349 | within a partition, equal hash inputs have equal sequence, previous hash and canonical record |
| AuditLedger.HeadCommitsToHistory | crates/kiteframe-audit/src/chain.rs:199-246 | two chains of a partition with one head hash are equally long with the same canonical record at every position, if the hash did not collide on their inputs |
| AuditLedger.VerifiedFilesCommitToHistory | crates/kiteframe-audit/src/chain.rs:179-246 | two verified files of a partition with one last hash hold equally many entries with the same canonical records, unless the hash collided |
| AuditLinkage.RecordIdsIdentifyEntries | crates/kiteframe-provider/src/audit.rs:233-258 | no two entries of a ledger share a record ID |
| AuditLinkage.OutcomesNameEarlierAuthorizations | crates/kiteframe-audit/src/chain.rs:266-331 | in a verified ledger every outcome names exactly one entry, a strictly earlier authorization, and agrees with it on all 27 fields |
| AuditRecords.LiteralsAgree | crates/kiteframe-provider/src/invocation.rs:803-898 | the two record literals, built separately, give all 27 correlation fields the same serialised value |
| AuditRecords.ServiceOutcomesAlwaysLink | crates/kiteframe-provider/src/invocation.rs:803-898 | the outcome record built after an execution is accepted by every verified ledger holding the call's authorization record |
| AuditRecords.AuthorizationSays | crates/kiteframe-provider/src/invocation.rs:803-836 | the serialised authorization record carries, member by member, the call's own values, its decision, preconditions and evidence, and the time |
| AuditRecords.OutcomeSays | crates/kiteframe-provider/src/invocation.rs:863-896 | the serialised outcome record carries the call's own values, the record it answers, how the operation ended, and a result or error exactly if there is one |
| AuditAnswers.LinksExactly | crates/kiteframe-audit/src/chain.rs:248-334 | a record links exactly when it is an authorization of the tenant, or an outcome naming an entry of this ledger that is an authorization with the same 27 values |
| AuditAnswers.MismatchIsFirst | crates/kiteframe-audit/src/chain.rs:290-330 | a reported mismatch names the first field on which the bodies differ |
| AuditAnswers.AppendExactly | crates/kiteframe-audit/src/chain.rs:87-143 | an append to a verified partition succeeds exactly when the record links, and writes one line: the next sequence, the last hash, the hash of all of it, and the ID made of them |
| AuditAnswers.AppendedVerifies | crates/kiteframe-audit/src/chain.rs:87-246 | after it the partition verifies with the new entry at its end, unless that was the last number |
| AuditAnswers.EffectsAreAudited | crates/kiteframe-provider/src/invocation.rs:803-898 | on every verified partition with room for two, the empty one included, a call's authorization record and then its outcome record are appended and read back |
| AuditAnswers.HashInputNamesPartition | crates/kiteframe-audit/src/chain.rs:336-349 | equal hash inputs of partitions of equal length are of one partition |
| Delegation.NarrowsGrantTransitive | python/kiteframe-deepagents/src/kiteframe_deepagents/delegation.py:145-282 | grant narrowing is transitive in every component |
| Delegation.NarrowsGrantReflexive | python/kiteframe-deepagents/src/kiteframe_deepagents/delegation.py:145-282 | a grant narrows itself exactly when it has a resource |
| Delegation.WalkAncestry | python/kiteframe-deepagents/src/kiteframe_deepagents/delegation.py:371-384 | the walk accepts exactly the simple paths and returns their agents and last child |
| Delegation.TryNewAncestry | crates/kiteframe-contract/src/service.rs:396-413 | the native constructor accepts exactly the same paths |
| Delegation.IntersectChildEnvelope | python/kiteframe-deepagents/src/kiteframe_deepagents/delegation.py:318-450 | succeeds exactly when the child narrows its parent and requirements, keeps the parent's revisions and extends the path, with no capability name twice, which alone is refused as an invalid edge; returns the specified envelope |
| Delegation.PrepareChild | python/kiteframe-deepagents/src/kiteframe_deepagents/adapter.py:265-327 | one declared child is prepared exactly when it and everything below it is in order |
| Delegation.PrepareAgent | python/kiteframe-deepagents/src/kiteframe_deepagents/adapter.py:168-335 | succeeds exactly on the accepted trees and returns the prepared tree |
| Delegation.DescendantsNarrowTheRoot | python/kiteframe-deepagents/src/kiteframe_deepagents/adapter.py:265-335 | at any depth of an accepted tree the session narrows the root's, its revisions include the root's, and its ancestry is the simple path from the root |
| DelegationLimits.NarrowingIsInclusion | python/kiteframe-deepagents/src/kiteframe_deepagents/delegation.py:145-282 | for a grant that permits anything, narrowing is exactly permitting no use and reaching no resource the other does not |
| DelegationLimits.ChildAcceptedExactly | python/kiteframe-deepagents/src/kiteframe_deepagents/delegation.py:318-450 | what `intersect_child_envelope` accepts, field by field: delegated names, narrowed grants, met requirements, kept revisions, a simple path |
| DelegationLimits.EnvelopeExactly | python/kiteframe-deepagents/src/kiteframe_deepagents/delegation.py:425-450 | the envelope holds the child's grants and revisions, their earliest expiry, and one more edge naming what the child holds |
| DelegationLimits.TreeAcceptedExactly | python/kiteframe-deepagents/src/kiteframe_deepagents/adapter.py:265-335 | a declared tree is accepted exactly when every edge of it meets those conditions and its identities, digests, principals, admission and request match |
| DelegationLimits.PreparedMirrors | python/kiteframe-deepagents/src/kiteframe_deepagents/adapter.py:265-335 | what is prepared has, at every depth and for each declaration in order, the child supplied for it with its own session and requested ancestry |
| DelegationLimits.DescendantsHoldOnlyWhatIsDelegated | python/kiteframe-deepagents/src/kiteframe_deepagents/delegation.py:386-425 | at any depth of an accepted tree a session holds only capabilities that every declaration on its path delegated, each answering a requirement of its agent, and every required one |
| YamlScanner.StrictYamlScanner.constructor | crates/kiteframe-core/src/yaml.rs:79-87 | a scanner starts with nothing counted |
| YamlScanner.StrictYamlScanner.Reject | crates/kiteframe-core/src/yaml.rs:179-183 | only the first violation is kept |
| YamlScanner.StrictYamlScanner.NodeStarted | crates/kiteframe-core/src/yaml.rs:124-162 | counts an item or key, alternates key and value, and detects a repeated scalar key |
| YamlScanner.StrictYamlScanner.CollectionStarted | crates/kiteframe-core/src/yaml.rs:164-177 | starts the node, then nests |
| YamlScanner.StrictYamlScanner.HandleEvent | crates/kiteframe-core/src/yaml.rs:195-234 | one event is the specified step |
| YamlScanner.StrictYamlScanner.Scan | crates/kiteframe-core/src/yaml.rs:89-122 | the loop reports the first violation of the event stream |
| YamlScanner.ScansNode | crates/kiteframe-core/src/yaml.rs:124-234 | in any state a node's events are accepted exactly when the node fits there, and then have exactly the node's effect |
| YamlScanner.AcceptsExactlyAcceptable | crates/kiteframe-core/src/yaml.rs:89-234 | a stream is accepted exactly when every document's depth, all entries and all aliases are within limits, no mapping repeats a scalar key and no alias is a key |
| YamlScanner.ReportedViolationIsReal | crates/kiteframe-core/src/yaml.rs:124-234 | a rejected stream has the fault that is reported: a repeated or alias key in some document, too deep a document, too many entries or aliases in all |
| YamlScanner.ScanDocuments | crates/kiteframe-core/src/yaml.rs:89-234 | the scanner object decides that condition and reports a fault the stream has |
| PackageDigest.HashDomain | crates/kiteframe-core/src/canonical.rs:16-29 | the hasher is fed exactly the specified encoding |
| PackageDigest.EncodingInjective | crates/kiteframe-core/src/canonical.rs:16-29 | the length-prefixed encoding determines its domain and its list of chunks |
| PackageDigest.SkillsReplacePrompts | crates/kiteframe-core/src/canonical.rs:43-45 | the merged map is in path order and a path has its skill's text if it has one, otherwise its prompt's |
| PackageDigest.LessIsLexicographic | crates/kiteframe-core/src/canonical.rs:43-69 | the path order compares the first byte that differs, a prefix first |
| PackageDigest.ComputePortableDigest | crates/kiteframe-core/src/canonical.rs:35-69 | the chunk-pushing loops compute the specified digest |
| PackageDigest.DigestIsCommitment | crates/kiteframe-core/src/canonical.rs:16-69 | two trees have one digest if and only if manifests, merged assets and, path by path, children are the same, if the hash did not collide on what was hashed |

## Left out

- Liveness and progress: only safety is modelled, so a record left Reserved after a failed authorization append stays fenced.
- HTTP routing, TLS, trace propagation, OpenFGA, the CLI, schema and stub generation and the PyO3 projections.
- JSON Schema validation, SemVer matching, lock and package resolution, and loading packages from disk.
- Principal correlation, evidence resolution and operation preconditions at the point of use: one oracle in `AdmissionService.Surroundings`.
- Diagnostics' wording, codes and source ranges, redaction, Display and serde code.
- SQL text, row encoding, migrations of existing rows and file-system errors; a transaction is one atomic step.
- The semantic digests inside a locked capability, and the catalog checks of `AdmissionService::try_new`: a locked capability is its descriptor.
- Sorting of grants and denials for the wire: they keep their order of collection, which only the digest could tell.
- InvocationStores.SqliteInvocationStore.ReserveOrGet: rows are keyed by reservation key, so the unique index on it is built in; ID uniqueness is the checked one.
- EffectService.EffectService.ExecuteEffect: runs without interruption on the in-memory store; interleaving, lost replies and recovery are in the step system.
- AuditLedger.HeadCommitsToHistory: claims nothing across partitions, because the partition name is not length-prefixed in the hash input.
- AuditLedger.FileAuditLedger.AppendSync: a write that fails halfway is not a separate outcome; AuditLedger.TruncationIsDetectedOrAPrefix covers what it leaves.
- Delegation.IntersectChildEnvelope: models the call `_prepare_agent` makes, with a declaration, a session and both agents; calls with bare grants or without agents are not modelled.
- Delegation.PrepareAgent: component validation, deep copies and the identity test on the revision object are not modelled.
- YamlScanner.StrictYamlScanner.Scan: the byte limit, UTF-8 decoding and parser errors come before any event and are not modelled.
- Read-only operations, which execute without the durable protocol, and LangGraph checkpointing.
