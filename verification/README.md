# Spawnly control plane: a verified model

Spawnly runs fleets of agents that spawn each other. Its control plane keeps several things consistent while
requests interleave, retry and fail: the lineage of agents and the tuples that let them act, a broker for user
consent, substrates in customer clusters driven over a lossy channel, account lockouts held for several reasons at
once, and the sidecar's token client. This project models those parts in Dafny and proves what they promise, over
every input and every run. In the modules whose names end in Runs, and in `SuspendedOrg`, `Hub`, `StaleSweep` and
`Ciba`, requests are taken apart into the steps between which others may run, and the theorems hold over every
interleaving of those steps.

How the model is laid out:

- `Common`: the option type and two sequence notions.
- `Lineage`, `Revocation`, `Registry`, `Cascade`, `LineageRuns`, `SuspendedOrg`: the ParentID graph, revoke and resume,
  the store's breadth-first and depth walks, the root-skipping cascade, whole runs of spawns, registrations, resumes and
  status changes, and what suspending an org means over them.
- `SpiffePath`, `AuthorityRuns`: workload ids, built and read back, the separate record and tuple writes behind an agent's authority, and
  the check of a delegation chain.
- `Consent`, `ConsentRuns`: the broker's store, and every interleaving of its split operations.
- `Substrate`, `SubstrateRuns`, `Hub`, `Reaper`: the substrate agent and its reconcile, convergence over histories,
  the dispatch hub, and the bounded teardown loop.
- `StaleSweep`: the operator's two-read sweep.
- `Suspension`, `SuspensionRuns`, `SuspensionRefinement`, `OrgCreate`: lockout reasons over whole requests and over
  interleaved ones, how the two agree, and the org transaction with its unwind.
- `Ciba`: the poll-mode client of OpenID CIBA Core 1.0.
- `Glob`: role-ARN patterns translated to regular expressions.

Stores are maps and sets; a store or remote call that may fail is an explicit parameter; clocks are integers. Where
the code updates fields under a lock, a class has those fields and each method's postcondition equates the new state
with a function of the old one; the theorems are about those functions and their runs. History fields (`cap`, `writes`,
`answers`, `sent`, `written`, `loose`, `cut`, `outside`) record what happened and are never read by a step's decision.

Assumptions: ids minted from the clock or at random are fresh; the permission `work_on` is the template relation
intersected with the agent's `enabled` tuple; the directory behaves as its adapter does; the operator's cache of
workloads is the set of workloads at the moment it is read.

What turned out not to hold, with the exact condition under which it does:

- Scope coverage is reported as "no uncovered scope" and as "the first uncovered scope is the empty string" by the
  same value (`Consent.CoverageMeansContainmentIff`).
- A registration overtaken by a complete revoke leaves a revoked agent enabled (`AuthorityRuns.OvertakenGrantLands`,
  `AuthorityRuns.CleanThroughoutIff`).
- A status report of `revoked` leaves the tuple of an enabled agent standing (`LineageRuns.EndedAreDisabledIff`).
- A retried revoke skips records already revoked, so a tuple whose delete failed stays
  (`Revocation.RetryMakesUpForStuckIff`).
- A cascade skips a loop made wholly of selected agents (`Cascade.LoopDefeatsSuspension`,
  `Cascade.SuspensionReachesIff`), and a user delete can miss an org-less agent below an org agent of the same owner
  (`Cascade.OrglessDeleteNeedsInheritance`, `Cascade.OrglessDeleteReachesIff`).
- A registration that read its id as unknown can still rewrite the lineage of a record preregistered meanwhile, and
  one of an unknown id can name a parent under which it does not belong (`LineageRuns.LateRegistrationRewrites`,
  `LineageRuns.LineageForever`).
- A resume, registration or preregistration whose org check passed before a suspension still acts after it
  (`SuspendedOrg.LateResumeLands`, `SuspendedOrg.SuspendedGainsIff`).
- An identity outlives a failed spawn when taking it back fails too, and a rotate whose sweep fails leaves entries under
  the old node (`SubstrateRuns.HistoryKeepsGoodIff`, `SubstrateRuns.HistoryKeepsNeatIff`).
- A record revoked while pending, or spoken for from outside any pod, can be failed by the sweep although no workload
  was deleted (`StaleSweep.RevokedPendingIsFailed`, `StaleSweep.OutsiderIsFailed`, `StaleSweep.SweepFailsExactly`).
- A member added or removed inside a suspension can escape it or be stranded by it (`SuspensionRuns.LateAddEscapes`,
  `SuspensionRuns.RemovalInsideDisableStrands`, `SuspensionRuns.LockoutsExactIff`).
- A re-post of a disabled org admits its administrator unlocked (`Suspension.RepostAdmitsIntoDisabledOrg`,
  `Suspension.OpKeepsAllLockedIff`).
- An interrupted member removal can strand a lockout (`Suspension.RetriedRemovalReleasesIff`,
  `Suspension.EnableAndDeleteMissTheRemoved`).
- A failed re-post of a known org can take away standing its caller already had
  (`OrgCreate.FailedCreateIsInvisibleIff`).
- A star never runs over a line break (`Glob.AgreesEverywhereIffStarless`).
- Tearing a workload down erases its identity only if record and workload agree on the agent type
  (`SubstrateRuns.TeardownErasesIffTypesAgree`).

Where the code and a comment disagree the model follows the code: the comment at internal/operator/stalesweep.go:76-77
says the workload is created before the record, while cmd/orchestrator/main.go:939-956 preregisters first.

## Model

| member | source | states |
|---|---|---|
| `Lineage.GroundedHasNoLoop` | cmd/registry/main.go:623-639 | a chain of parents that leaves the store meets no record twice |
| `Lineage.GroundedCountsAncestors` | cmd/registry/main.go:623-639 | on such a chain, counting distinct ancestors and counting hops agree |
| `Registry.Store.constructor` | cmd/registry/main.go:87-98 | a new store is well keyed and empty |
| `Registry.Store.ListAgents` | cmd/registry/main.go:227-237 | lists exactly the non-dismissed records |
| `Registry.Store.ListChildren` | cmd/registry/store_adapter.go:105-115 | lists exactly the records naming the parent, dismissed ones included, none twice |
| `Registry.WalkVisit` | cmd/registry/main.go:530-558 | visiting one id keeps the walk's invariant: visited and queued ids carry their true distance in non-decreasing order, and children of visited ids are visited or queued |
| `Registry.WalkDone` | cmd/registry/main.go:530-558 | an exhausted walk has found the whole subtree and nothing else |
| `Registry.Store.Subtree` | cmd/registry/main.go:530-558 | on any graph, loops included, the walk ends and returns exactly the ids whose parents lead to the root, each once, root first, nearer before farther; nothing for an unknown id; it fails iff the root cannot be read or the children of some id below it cannot be listed, and then returns nothing |
| `Registry.TrailIsWhole` | cmd/registry/main.go:623-639 | a climb that left the store or met an id again has met every ancestor |
| `Registry.Store.Depth` | cmd/registry/main.go:623-639 | on any graph, the depth is the number of distinct ancestors, the agent included; the walk fails iff some id it leads to cannot be read |
| `Registry.Store.RevokeNode` | cmd/registry/main.go:913-941 | revokes the record iff it is active or pending and drops its tuple unless that delete fails; a failed read or status write changes nothing |
| `Registry.Store.ResumeNode` | cmd/registry/main.go:1016-1044 | reactivates the record iff it is revoked and restores its tuple unless that write fails; a failed read or status write changes nothing |
| `Registry.Store.RevokeSubtree` | cmd/registry/main.go:1845-1880 | fails iff some record of the subtree cannot be read, listed or written, having revoked a proper part; otherwise revokes exactly the active or pending descendants and reports them |
| `Registry.Store.ResumeSubtree` | cmd/registry/main.go:1888-1936 | refused for a suspended org; fails iff the org cannot be looked up or some record of the subtree cannot be read, listed or written, having resumed a proper part; otherwise resumes exactly the revoked descendants and reports them |
| `Registry.Store.CascadeOverRoots` | cmd/registry/main.go:987-1003 | revokes everything below the roots whose parent is not in scope; fails iff something there cannot be read, listed or written, having revoked a part |
| `Cascade.CoveredIsCascadeSet` | cmd/registry/main.go:960-1003 | what a cascade covers does not depend on the order in which the store lists its roots |
| `Registry.Store.RevokeCascadeRoots` | cmd/registry/main.go:960-978 | the cascade over listed agents revokes the order-free cascade set of its scope and root predicates, and succeeds iff nothing in that set stands in its way |
| `Registry.Store.SuspendOrgAgents` | cmd/registry/orgs.go:829-832 | suspending an org changes only agents at or below listed agents whose record names the org, and on an acyclic fleet, once no error stopped it, every one of those that was active or pending is revoked and without its tuple unless that delete failed |
| `Registry.Store.RevokeOrglessRoots` | cmd/registry/users.go:272-276 | deleting a user changes only agents at or below listed org-less agents the user owns, and on an acyclic fleet with inherited orgs revokes every one of them |
| `Registry.Store.EndOwnership` | cmd/registry/main.go:1072-1114 | removes the user's owner tuple from exactly the given agents whose delete does not fail |
| `Revocation.VisitsAreExact` | cmd/registry/main.go:913-941 | in record fields: visiting a node revokes it iff it was active or pending and resumes it iff it was revoked; the tuple follows unless its call failed, and nothing else moves |
| `Registry.Store.ApplyRemovalDisposition` | cmd/registry/main.go:1072-1114 | in record fields: the removed member loses the owner tuple of exactly the listed agents that name both the org and the member, wherever the delete succeeds; without auto-revoke no authority moves; with it only agents at or below those change, and on an acyclic fleet all of them are revoked |
| `Cascade.SelectionsMean` | cmd/registry/main.go:1072-1085 | which agents an org suspension, a member removal and a user deletion select: the listed records with that org, with that org and owner, and org-less with that owner |
| `Cascade.CascadeStaysBelow` | cmd/registry/main.go:960-1003 | a cascade, finished or not, changes no record or tuple outside the subtrees of the agents it selects |
| `Cascade.CascadeRevokesAll` | cmd/registry/main.go:960-1003 | on an acyclic fleet a finished cascade leaves every selected active or pending agent revoked, without its tuple unless that delete failed |
| `Revocation.RevokeCompose` | cmd/registry/main.go:913-941 | revoking two sets in turn is revoking their union, so a cascade's order cannot be observed |
| `Revocation.ResumeCompose` | cmd/registry/main.go:1016-1044 | resuming two sets in turn is resuming their union |
| `Revocation.RetryConverges` | cmd/registry/main.go:1857-1880 | revoke is idempotent, and a retry after an aborted cascade ends where one clean cascade would |
| `Revocation.RetryMakesUpForStuckIff` | cmd/registry/main.go:913-941 | a retried cascade makes up for failed tuple deletes iff none of the failed deletes was of an existing tuple |
| `Revocation.RevokeThenResume` | cmd/registry/main.go:1857-1935 | revoke then resume makes every active, pending or revoked node active with its tuple and moves no other record or tuple |
| `Cascade.SelectedIsCovered` | cmd/registry/main.go:987-1003 | on a grounded chain, every selected agent is below a root at which the cascade starts |
| `Cascade.CascadeIsComplete` | cmd/registry/main.go:960-1003 | on an acyclic lineage with a root predicate closed upward in its scope, every selected active or pending agent ends revoked without its tuple, and only active or pending records below selected agents change |
| `Cascade.SameScopeIsClosed` | cmd/registry/orgs.go:829-832 | org suspension and member removal meet the closure condition outright |
| `Cascade.OrglessDeleteIsClosed` | cmd/registry/users.go:207 | user deletion meets it because a child carries its parent's org |
| `Cascade.OrglessDeleteNeedsInheritance` | cmd/registry/users.go:272-276 | without org inheritance, user deletion misses an agent (the exact condition is the reach theorem below) |
| `Cascade.CascadeReachesIff` | cmd/registry/main.go:960-1003 | on any graph and for any scope and root, a cascade reaches an agent iff climbing its listed in-scope parents comes to an end, at an agent where the cascade starts or whose own parent it reaches |
| `Cascade.TopExists` | cmd/registry/main.go:987-1003 | on a chain that leaves the store that climb always comes to an end |
| `Cascade.OrglessDeleteReachesIff` | cmd/registry/users.go:272-276 | user deletion reaches an org-less agent iff the topmost agent of the same owner above it is org-less or hangs below an agent that is reached |
| `Cascade.SuspensionReachesIff` | cmd/registry/main.go:987-1003 | on any graph, a same-scope cascade reaches a selected agent iff climbing through selected agents comes to an end |
| `Cascade.LoopDefeatsSuspension` | cmd/registry/main.go:987-1003 | a two-agent loop in one org is not revoked at all |
| `LineageRuns.NewRecord` | cmd/orchestrator/main.go:939-954 | a fresh record under no parent or a stored one keeps the forest, leaves every ancestor set alone, and sits one below its parent |
| `LineageRuns.StepKeepsIff` | cmd/registry/main.go:1520-1577 | each part of a spawn, registration or resume, each patch, revoke, dismissal and suspension keeps the lineage invariant and freezes existing lineage iff it is not a registration that writes over a record it had read as absent, or that puts an unknown id under a parent that is not stored or has an org |
| `LineageRuns.LineageForever` | cmd/orchestrator/main.go:692-704 | over every run, every state is a forest whose children share their parent's org and sit within their depth limit, and every step leaves parent, user, org, placement and depth of existing records alone, iff no registration of those two kinds occurs |
| `LineageRuns.LateRegistrationRewrites` | cmd/registry/main.go:1520-1577 | a registration that starts before the preregistration of its id and ends after it takes the record out of its org |
| `LineageRuns.ReachableCascadesAreComplete` | cmd/registry/main.go:960-1003 | in every world reached without such a registration, suspending an org, deleting a user and removing a member each cover all agents they select |
| `LineageRuns.EndedForeverIff` | cmd/registry/main.go:1541-1577 | over every run: an agent completed, failed or revoked with no registration under way stays so and gains no tuple, iff no outside status report and no resume of it brings it back; its own registrations cannot |
| `LineageRuns.EndedAreDisabledIff` | cmd/registry/main.go:1761-1810 | over every run: no completed, failed or revoked agent holds its tuple in any state, iff no status report marks an enabled agent revoked |
| `LineageRuns.UninterruptedRoot` | cmd/registry/main.go:1412-1430 | a root spawn stores a pending record as asked and adds no `enabled` tuple, unless its org is suspended |
| `LineageRuns.UninterruptedChild` | cmd/orchestrator/main.go:692-704 | a child spawn stores a pending record below its parent, in the parent's tenant and org, iff the parent is stored, policy allows it, the org is not suspended and the chain is shorter than the limit; otherwise nothing moves |
| `LineageRuns.UninterruptedRegistration` | cmd/registry/main.go:1541-1618 | a registration is refused iff its record has ended or its org is suspended; otherwise the record is active, undismissed and enabled, with parent, owner, org and placement as preregistered |
| `LineageRuns.UninterruptedResume` | cmd/registry/main.go:1888-1936 | a resume makes a revoked node at or below a stored agent outside suspended orgs active with its tuple, once; every other node stays as it is |
| `LineageRuns.ReportsAreExact` | cmd/registry/main.go:1761-1810 | a status report ends the tuple iff it says completed or failed; a dismissal marks the record alone; neither touches another field, record or tuple |
| `SuspendedOrg.SuspendedGainsIff` | cmd/registry/main.go:1556-1565 | a step gives an agent of the org a tuple iff it is the write of a registration or the resume of a node whose org check had passed before, and adds an agent iff it is the store of a preregistration or first registration cleared before |
| `SuspendedOrg.SuspendedOrgGainsNothing` | cmd/registry/main.go:1412-1421 | over every run with the org suspended and no request cleared for it before, none of its agents gains a tuple and it gains no agent |
| `SuspendedOrg.LateResumeLands` | cmd/registry/main.go:1898-1933 | a resume checked before the suspension that acts after the whole cascade leaves its agent active and enabled in the suspended org |
| `SuspendedOrg.CascadeVisits` | cmd/registry/main.go:960-1003 | run node by node among any other requests, the suspension cascade visits every agent of the org listed at its start |
| `SuspendedOrg.SuspensionHolds` | cmd/registry/orgs.go:829-832 | with no request cleared before, each listed agent is visited by the interleaved cascade, is right after enabled iff it was and in a status revoke leaves alone, and is enabled at the end only if that was so |
| `LineageRuns.RegisterKeepsForestIff` | cmd/registry/main.go:1531-1577 | storing any record over an acyclic lineage keeps it acyclic iff the named parent's chain does not lead back to the id |
| `SpiffePath.BaseOfBuilt` | internal/spiffe/path.go:93-115 | the last path element of a built workload id is the agent id it was built from |
| `SpiffePath.BuiltIsInjective` | internal/spiffe/path.go:93-115 | within a trust domain and org, different agents have different ids |
| `SpiffePath.BuiltIff` | internal/spiffe/path.go:93-115 | an id can be built iff no part is empty or holds a slash |
| `SpiffePath.BaseIsLastElement` | internal/spiffe/path.go:176-179 | the agent id read from any path is its last element with trailing slashes ignored |
| `SpiffePath.BuiltReadsBack` | internal/spiffe/path.go:158-215 | round trip: a built workload id reads back as its own trust domain, org and agent |
| `SpiffePath.BuiltDeterminesAll` | internal/spiffe/path.go:93-115 | a built id determines trust domain, org, type and agent |
| `SpiffePath.SubstrateAgentReadsBack` | internal/spiffe/path.go:126-137 | round trip: the substrate agent's id reads back as that org's substrate agent, and no workload has that id |
| `SpiffePath.ReadIff` | internal/spiffe/path.go:158-215 | every string: it is refused iff the scheme is missing, the trust domain empty, or an org is claimed outside both templates; one without a claim reads as org-less |
| `SpiffePath.OrgClaimIsExact` | internal/spiffe/path.go:158-215 | an id that reads back with an org has it as the second path element under "org", followed by "agent" and more, or by the substrate agent's leaf alone |
| `AuthorityRuns.StepKeepsCleanIff` | cmd/registry/main.go:1761-1810 | each record write, tuple write and tuple delete, by any overlapping requests, keeps an agent clean (dead means no grant under way, and a tuple only while its delete is to come) iff it does not declare the agent dead under a half-done grant or beside an unattended tuple, nor fail its last delete |
| `AuthorityRuns.CleanMeans` | cmd/registry/main.go:913-941 | clean, spelled out: a revoked, completed or failed agent has no grant under way and holds its tuple only while a delete is to come |
| `AuthorityRuns.CleanThroughoutIff` | cmd/registry/main.go:913-941 | an agent is clean in every state of a run iff no step of the run is such a slip |
| `AuthorityRuns.RestoredIsClean` | cmd/registry/main.go:913-941 | after any mishap, coming back to life or a successful delete with no grant half done makes the agent clean again |
| `AuthorityRuns.OvertakenGrantLands` | cmd/registry/main.go:1541-1618 | from any state, a close that runs wholly inside a registration leaves the agent dead and enabled with nothing in flight |
| `AuthorityRuns.DeadAndEnabledIff` | cmd/registry/main.go:913-941 | with no request on the agent under way at the end of a run, it is dead and enabled iff its last record write is a dead one and its last effective tuple call a grant; and then the dead status came by a PATCH that leaves the tuple alone, or by a close whose delete failed or came before the grant of an open it ran inside |
| `AuthorityRuns.AuthorizeChain` | cmd/sample-api/main.go:103-116 | the loop allows a chain iff every member has the tenant's relation and its own enabled tuple and no check errs |
| `AuthorityRuns.AllowedNeedsEveryMember` | cmd/sample-api/main.go:103-116 | a chain is allowed iff every member is checked without fault, has the tenant's relation, and is enabled |
| `AuthorityRuns.VerdictIsTheFirst` | cmd/sample-api/main.go:103-116 | any other verdict is that of the first member that does not pass: a fault if its check errs, else a denial naming it |
| `AuthorityRuns.DeadMemberDeniesChain` | cmd/sample-api/main.go:103-116 | after any run without a slip on it, a revoked, completed or failed agent not being closed denies every chain it is part of, on every tenant, whatever befell other agents |
| `AuthorityRuns.RevokeLeavesOtherChains` | cmd/registry/main.go:913-941 | a revoke changes no verdict for chains that avoid the agents it revoked |
| `Consent.EdgeKeyInjective` | internal/registry/consent.go:93-106 | edge keys determine user, parent type and child type when the first two contain no bar |
| `Consent.OpenKeyIff` | internal/registry/consent.go:97-106 | two requests share an open key iff they name the same waiting agent, or name none and are on the same edge |
| `Consent.CoverageMeansContainmentIff` | internal/registry/consent.go:112-123 | "no uncovered scope" means containment iff the first uncovered scope is not the empty one |
| `Consent.CoversIff` | internal/registry/consent.go:128-139 | a grant covers a request iff it is not revoked, not past its expiry, and its scopes contain the requested ones or the empty scope hides the rest |
| `Consent.OnePendingPerKey` | cmd/registry/main.go:354-372 | an exact index leaves at most one pending request per open key |
| `Consent.CommitKeepsIndex` | cmd/registry/main.go:476-514 | a resolve, sweep included, keeps the open index exactly the pending requests |
| `Consent.ApprovalIsExact` | cmd/registry/main.go:498-515 | an approval flips exactly the other pending requests on its edge that the new grant covers, and writes no grant but the edge's, whose id survives |
| `Consent.ResolveMeans` | cmd/registry/main.go:453-516 | in record fields: a resolve is refused iff the request is unknown or another user's; committed on a pending request it stores the verdict asked for; a denial leaves every grant alone; an approval leaves a live grant of the request's user with the given expiry and exactly the scopes named, or the requested ones when none are |
| `Consent.ApprovalCoversItsRequest` | cmd/registry/main.go:453-516 | an approval that names no scopes covers its own request until the grant expires |
| `Consent.SweepPending` | cmd/registry/main.go:498-515 | the sweep approves the covered pending requests of the edge and closes their keys, whatever order the map yields |
| `Consent.Store.CreateConsentRequest` | cmd/registry/main.go:354-372 | returns the open request under the key, changing nothing, or stores a new pending one and indexes it, creating iff the key was free, so a stale index entry is never met |
| `Consent.Store.ApprovePendingConsentRequest` | cmd/registry/main.go:407-423 | a pending request becomes approved at that time, a resolved one is left alone; what it returns is never pending |
| `Consent.Store.ResolveCheck` | cmd/registry/main.go:453-472 | refuses exactly unknown requests and other users'; an approval plans exactly the named scopes, or the requested ones, with the given expiry |
| `Consent.Store.ResolveCommit` | cmd/registry/main.go:476-516 | the locked half is the commit function: nothing unless still pending, a denial writes no grant, an approval writes one and sweeps |
| `Consent.Store.RevokeConsent` | cmd/registry/main.go:317-328 | marks revoked exactly the grant with that id and, when an owner is given, that owner; no other field or grant moves; reports whether there is one |
| `Consent.Store.PurgeUserConsents` | cmd/registry/users.go:281-292 | revokes every grant of the user and no other, the empty name meaning everyone |
| `ConsentRuns.CommitKeeps` | cmd/registry/main.go:453-516 | a commit, however late after its check, keeps every broker invariant and upholds past verdicts |
| `ConsentRuns.StepKeeps` | cmd/registry/main.go:663-682 | so does every other step, the parts of a read by id included |
| `ConsentRuns.ConsentLinearizes` | cmd/registry/main.go:453-516 | in every interleaving a verdict is final, each request causes at most one grant write, only if approved and only by a resolve unscoped or scoped to its own user, the index equals the pending requests, and a read whose lookup found a covering grant never answers pending |
| `ConsentRuns.ReadKeeps` | cmd/registry/main.go:2248-2268 | a read by id, in all its parts, changes no grant |
| `ConsentRuns.DeniedWritesNothing` | cmd/registry/main.go:453-516 | a denied request causes no grant write before or after its denial |
| `ConsentRuns.OnlyWritesUnrevoke` | cmd/registry/main.go:282-328 | a revoked grant is live later only through a write on its edge, by a POST or by an approval of a request then still unresolved |
| `ConsentRuns.PurgeRevokesWhatItListed` | cmd/registry/users.go:281-292 | with other requests between the listing and each revoke, a listed grant ends revoked unless its edge was written again |
| `ConsentRuns.UninterruptedRead` | cmd/registry/main.go:663-682 | a read by id approves and answers a pending request iff its edge holds a live grant covering it; otherwise it answers what is stored and changes nothing |
| `ConsentRuns.UninterruptedResolve` | cmd/registry/main.go:453-516 | a resolve with nothing in between is its plan followed by its commit |
| `ConsentRuns.NewRequestsAreExact` | cmd/registry/main.go:354-392 | a new request is stored pending and indexed unless one is open under its key; one created covered is stored approved and never indexed; no grant moves |
| `ConsentRuns.PostedConsent` | cmd/registry/main.go:282-291 | a posted consent becomes the edge's grant as posted, but for the id an earlier grant keeps |
| `Substrate.Reconcile` | cmd/substrate-agent/reconcile.go:41-77 | creates exactly the should-run records without a workload that are not revoked, deletes exactly the workloads without a should-run record; of records with one id the last counts |
| `Substrate.WantedIff` | cmd/substrate-agent/reconcile.go:21-47 | an id is wanted iff some listed record of it is neither dismissed, completed nor failed |
| `Substrate.LastOneCounts` | cmd/substrate-agent/reconcile.go:41-47 | of several should-run records of one id, the last listed is the one wanted |
| `Substrate.EnsureEntryFor` | cmd/substrate-agent/reconcile.go:85-100 | re-asserts exactly the should-run records that have a workload |
| `Substrate.EnsureIsExact` | cmd/substrate-agent/agent.go:214-262 | under any faults, re-asserting gives each agent its entry under the current node unless its path cannot be spelled or its call failed; no entry goes and no workload moves |
| `Substrate.SelectorsNameThePod` | cmd/substrate-agent/reconcile.go:111-128 | two workloads have the same selectors iff namespace, agent id and service account agree, none meaning the default one |
| `Substrate.SubstrateAgent.Materialize` | cmd/substrate-agent/agent.go:125-141 | under any faults: succeeds iff the id can be spelled and neither create fails, then adding exactly the agent's entry and, unless present, its workload; a failed workload create leaves no entry on the path if taking it back works; a failed entry create changes nothing |
| `Substrate.SubstrateAgent.Teardown` | cmd/substrate-agent/agent.go:177-189 | under any faults: once the id can be spelled and the entry delete works, every entry on the path is gone even if the workload delete then fails; the workload goes iff both work |
| `Substrate.SubstrateAgent.Converge` | cmd/substrate-agent/agent.go:214-262 | a pass tries every item of its lists in order, each under its own faults; a failed listing changes nothing |
| `Substrate.SubstrateAgent.HandleSpawn` | cmd/substrate-agent/agent.go:87-105 | a delivered spawn frame materializes the workload, under any faults |
| `Substrate.SubstrateAgent.HandleKill` | cmd/substrate-agent/agent.go:153-171 | a delivered kill frame tears the workload down if there is one and it can be looked up, under any faults |
| `SubstrateRuns.PathsApart` | cmd/substrate-agent/agent.go:177-189 | erasing one workload's identity spares every other's |
| `SubstrateRuns.MaterializeKeepsGoodIff` | cmd/substrate-agent/agent.go:107-141 | a spawn leaves no identity behind iff not all of this happens: no workload yet, the entry is made, the workload is not, and taking the entry back fails |
| `SubstrateRuns.TeardownKeepsGood` | cmd/substrate-agent/agent.go:173-189 | a teardown, whatever fails in it, leaves no identity behind |
| `SubstrateRuns.PassKeepsGoodIff` | cmd/substrate-agent/agent.go:214-262 | a pass, whatever fails in it, leaves no identity behind iff none of its creates meets that double fault |
| `SubstrateRuns.FaultsAreIsolated` | cmd/substrate-agent/agent.go:191-262 | an agent none of whose own calls fails ends a pass exactly as it would have without any fault |
| `SubstrateRuns.ConvergeSettles` | cmd/substrate-agent/agent.go:214-262 | after any history one fault-free pass yields exactly the should-run workloads, revoked ones only if they had one, for each its own identity under its org and node, and beside these exactly the entries earlier faults left: without a workload, or under a node whose sweep failed |
| `SubstrateRuns.SecondPassIsIdle` | cmd/substrate-agent/reconcile.go:41-77 | a second pass deletes nothing and creates nothing that can be named |
| `SubstrateRuns.TeardownErasesIffTypesAgree` | cmd/substrate-agent/agent.go:177-189 | an identity asserted under the record's type is gone after teardown iff the workload has that type |
| `SubstrateRuns.KillErases` | cmd/substrate-agent/agent.go:153-189 | with nothing left behind before, a kill frame on whose agent no call fails leaves neither the workload nor any entry of the agent; one whose workload cannot be read does nothing |
| `SubstrateRuns.HistoryKeepsGoodIff` | cmd/substrate-agent/agent.go:107-141 | over any history of frames, losses, rotates and passes with any faults, failed sweeps included, no state has an identity without its workload iff no event leaves one behind |
| `SubstrateRuns.RotateReclaimsIff` | cmd/orchestrator/substrate.go:244-262 | a rotate reclaims every identity left behind iff its sweep misses none of them |
| `SubstrateRuns.HistoryKeepsNeatIff` | cmd/orchestrator/substrate.go:244-262 | in addition no state has an entry under another node iff no rotate misses one |
| `SubstrateRuns.ConvergenceForgetsHistory` | cmd/substrate-agent/agent.go:214-262 | two histories with any faults, ending on one node with the same revoked workloads, get the same workloads from one clean reconcile against the same records, and identities that differ at most by what faults left; identical substrates if neither history left any |
| `Hub.StepKeeps` | cmd/orchestrator/substrate_channel.go:60-133 | each locked section and each unlocked send keeps the hub invariant |
| `Hub.NewestWins` | cmd/orchestrator/substrate_channel.go:60-133 | in every interleaving a slot is empty or holds the org's last registered connection, and a push is enqueued at most once, on a connection bound to its org |
| `Hub.FramesKeepOrder` | cmd/orchestrator/substrate_channel.go:188-205 | first in, first out, in every interleaving: what a connection has written and still holds is exactly what was enqueued on it, in order |
| `Hub.RegisterIsExact` | cmd/orchestrator/substrate_channel.go:60-73 | registering takes the org's slot for a connection with an empty queue and cancels the one that held it and no other |
| `Hub.SuccessorIsNotEvicted` | cmd/orchestrator/substrate_channel.go:78-84 | no teardown of a replaced connection evicts its successor |
| `Hub.SendMayLandOnReplacedConnection` | cmd/orchestrator/substrate_channel.go:118-133 | a successful push may sit on a connection already replaced |
| `Hub.SubstrateHub.RegisterConn` | cmd/orchestrator/substrate_channel.go:60-73 | installs the connection and cancels the one it replaces |
| `Hub.SubstrateHub.UnregisterConn` | cmd/orchestrator/substrate_channel.go:78-84 | frees the slot if it still holds this connection, and otherwise changes no slot |
| `Hub.SubstrateHub.SlotOf` | cmd/orchestrator/substrate_channel.go:118-124 | the locked half of a push reads the org's slot |
| `Hub.SubstrateHub.SendTo` | cmd/orchestrator/substrate_channel.go:125-133 | the unlocked half enqueues iff fewer than 256 frames wait, else cancels that connection |
| `Hub.SubstrateHub.NextFrame` | cmd/orchestrator/substrate_channel.go:188-205 | the writer takes the oldest frame and leaves the rest in order |
| `Reaper.TearDown` | cmd/orchestrator/substrate_reaper.go:84-136 | an id not yet done is dismissed and killed iff the registry accepts the call, else recorded as failed; an id already done is left alone |
| `Reaper.BalancedMeans` | cmd/orchestrator/substrate_reaper.go:84-136 | in the log of calls kept by the loops each kill directly follows its own accepted dismissal, no id is killed twice, both sets are exact, every verdict is the registry's, and nothing has failed if it accepts everything |
| `Reaper.ReapSubtree` | cmd/orchestrator/substrate_reaper.go:84-136 | against any registry: at most 8 reads; every dismissal answered by the registry and every kill right after its own; dismissed and failed ids are together exactly the ids named by the replies and, unless cancelled, the root; the reason given for stopping is true of the last reply; a stop without progress dismissed nobody but the root since that reply, and with no failures has dismissed its whole snapshot; and every pass but the last, or every pass when it ran out of them, was answered with agents, dismissed someone new and was not cancelled, so it never stops early nor goes on idly |
| `StaleSweep.Sweep` | internal/operator/stalesweep.go:82-153 | fails exactly the listed agents placed on Kubernetes, active, awaiting consent or revoked, without a workload, except refused patches; a failed list fails nobody |
| `StaleSweep.BackedHasBeenMade` | cmd/orchestrator/main.go:939-956 | in every reachable world a workload-backed platform record has had its workload made, unless it was revoked while pending or something registered or reported for it before |
| `StaleSweep.SweepFailsExactly` | internal/operator/stalesweep.go:82-137 | whatever runs before and between the two reads, a record is failed iff it is listed, placed on Kubernetes, active, awaiting consent or revoked, and its workload was deleted by the second read, or it has none yet and by the first read had been revoked while pending or spoken for from outside any pod |
| `StaleSweep.DeletedWorkloadIsFailed` | internal/operator/stalesweep.go:82-137 | the first half of that condition is met by a run: an agent whose workload is deleted between the reads is failed |
| `StaleSweep.SwappedReadsFailALiveAgent` | internal/operator/stalesweep.go:82-137 | with the reads swapped, a live agent is failed |
| `StaleSweep.RevokedPendingIsFailed` | cmd/registry/main.go:890-892 | an agent revoked while pending is failed with nothing deleted |
| `StaleSweep.OutsiderIsFailed` | cmd/registry/main.go:1541-1577 | an agent that registers on its own from outside any pod is failed with nothing deleted and nothing revoked |
| `StaleSweep.ReportsAsInRuns` | cmd/registry/main.go:1761-1810 | status reports and dismissals move the records as they do in the registry's own runs |
| `StaleSweep.VisitsAsInRuns` | cmd/registry/main.go:913-941 | so do revokes and resumes |
| `StaleSweep.RegistersAsInRuns` | cmd/registry/main.go:1541-1577 | so do registrations, refusals included |
| `Suspension.ReasonsAreIndependent` | internal/orgdirectory/directory.go:144-162 | adding and lifting different lockout reasons commute, lifting undoes adding, and each changes its own reason and no other |
| `Suspension.SuspensionUnlocksNothing` | internal/orgdirectory/keycloak/keycloak.go:571-660 | on any account: suspending and releasing leaves login possible iff it was possible before with no reason recorded, so an account disabled by hand stays disabled |
| `Suspension.ApplyKeepsSound` | cmd/registry/orgs.go:400-533 | every completed org, member and user operation keeps login and recorded reasons in agreement |
| `Suspension.NoLockoutOutlivesItsCause` | cmd/registry/orgs.go:734-818 | over every run of whole requests an account can log in iff no reason is recorded, every recorded org exists, is disabled and has the member, and master administrators are never locked out |
| `Suspension.BanHolds` | cmd/registry/users.go:116-170 | after an administrator disables a known account it cannot log in until an administrator enables it, over every run of other requests |
| `Suspension.UserOpsAreExact` | cmd/registry/users.go:116-170 | enabling a user lifts the ban alone, so login returns iff no org suspends the account; disabling bans everyone but a master administrator; nobody else's account moves |
| `Suspension.OrgOpsAreExact` | cmd/registry/orgs.go:400-533 | suspending, enabling and deleting an org in fields: flag, records, and exactly whose account gains or loses that org's reason; unknown orgs change nothing |
| `Suspension.MemberOpsAreExact` | cmd/registry/orgs.go:602-773 | joining and leaving in fields: membership, account, and whose reason is lifted; a suspended org admits no new member |
| `Suspension.OpKeepsAllLockedIff` | cmd/registry/orgs.go:606-617 | a completed operation keeps every member of a disabled org locked out iff it is not a re-post admitting someone into a disabled org |
| `Suspension.SuspendedOrgsLockEveryone` | cmd/registry/orgs.go:606-617 | over every run of whole requests without such a re-post no member of a disabled org can log in, master administrators apart, whatever bans and other suspensions come and go |
| `Suspension.RepostAdmitsIntoDisabledOrg` | cmd/registry/orgs.go:215-273 | creating, disabling and re-posting an org leaves the new administrator enabled inside it |
| `Suspension.RetriedRemovalReleasesIff` | cmd/registry/orgs.go:734-773 | retrying an interrupted removal releases the account iff the org is still disabled |
| `Suspension.EnableAndDeleteMissTheRemoved` | cmd/registry/orgs.go:807-818 | after an interrupted removal the reason survives both enabling and deleting the org |
| `SuspensionRuns.StepKeepsIff` | cmd/registry/orgs.go:400-533 | with every handler taken apart, each step keeps a lockout caused iff it does not remove the cause, or tag without one, with nobody left to lift it; and keeps a cause locked iff it does not let a member in with nobody left to tag it |
| `SuspensionRuns.LockoutsExactIff` | cmd/registry/orgs.go:400-533 | over every interleaving, stops included, both hold in every state iff no such step occurs; and in all runs an account can log in iff no reason is recorded |
| `SuspensionRuns.AtRestLockedIffSuspended` | cmd/registry/orgs.go:400-533 | with no request on the org under way after a run without such steps, the org locks an account out iff it exists, is disabled and has the member |
| `SuspensionRuns.BanHolds` | cmd/registry/users.go:116-170 | a ban holds over every interleaving of split requests until an administrator enables the account |
| `SuspensionRefinement.AddIsWhole` | cmd/registry/orgs.go:602-623 | the steps of an add, uninterrupted, are the whole operation |
| `SuspensionRefinement.PostIsWhole` | cmd/registry/orgs.go:198-306 | likewise a create or re-post |
| `SuspensionRefinement.RemoveIsWhole` | cmd/registry/orgs.go:734-773 | likewise a removal |
| `SuspensionRefinement.DisableIsWhole` | cmd/registry/orgs.go:785-799 | likewise a suspension, in whatever order it takes the accounts |
| `SuspensionRefinement.EnableIsWhole` | cmd/registry/orgs.go:807-818 | likewise an enable, in whatever order |
| `SuspensionRefinement.DeleteIsWhole` | cmd/registry/orgs.go:467-533 | likewise a delete, in whatever order |
| `SuspensionRefinement.BansAreWhole` | cmd/registry/users.go:116-170 | likewise bans and their lifting |
| `SuspensionRuns.LateAddEscapes` | cmd/registry/orgs.go:602-623 | a member add checked before a suspension and written after its listing leaves the member able to log in |
| `SuspensionRuns.RemovalInsideDisableStrands` | cmd/registry/orgs.go:785-799 | a member removed between the listing of a suspension and its turn is tagged after the removal is over |
| `Suspension.Handlers.Disable` | cmd/registry/orgs.go:400-428 | completes iff enough of its calls succeed and the agent cascade does; stops with nothing done, or with the flag set and part of the members tagged |
| `Suspension.Handlers.EnableMembers` | cmd/registry/orgs.go:807-818 | completes iff the listing and one call per member succeed; wherever it stops, the org's own reason is lifted from a part of its members and nothing else is touched |
| `Suspension.Handlers.Enable` | cmd/registry/orgs.go:436-462 | completes iff enough of its calls succeed; wherever it stops, the flag is as it was and part of the members are released |
| `Suspension.Handlers.Delete` | cmd/registry/orgs.go:467-533 | completes iff enough of its calls succeed; stops with part of the members released, or with all released and only the store record left |
| `Suspension.Handlers.Remove` | cmd/registry/orgs.go:703-773 | completes iff enough of its calls succeed and the member's agents are settled; stops with nothing done or half left: membership gone, the org's reason still recorded |
| `OrgCreate.OrgService.Unwind` | cmd/registry/orgs.go:247-263 | undoes the admin wiring always, and the org itself iff this call made it |
| `OrgCreate.OrgService.Create` | cmd/registry/orgs.go:198-306 | succeeds iff no step failed and then holds the created state; otherwise holds the undone state, in which the caller's account has been opened iff the membership write landed |
| `OrgCreate.CreatedMeans` | cmd/registry/orgs.go:198-306 | in fields: name, directory, administrator, membership, account, and redirects on a satellite; a re-post keeps settings and suspension; no other org or user moves |
| `OrgCreate.RepostConverges` | cmd/registry/orgs.go:198-306 | the same request posted again changes nothing |
| `OrgCreate.FailedCreateIsInvisible` | cmd/registry/orgs.go:198-306 | for an absent org a fault at any step, landed or not, leaves every store as before but for an opened account, and a clean retry equals a clean create |
| `OrgCreate.FailedCreateIsInvisibleIff` | cmd/registry/orgs.go:198-306 | for any org, known ones included, a failed create leaves no trace iff its stores agreed, its wiring was missing and its name unchanged beforehand |
| `Ciba.SectionIsSafe` | cmd/agent-sidecar/ciba.go:238-315 | each locked section keeps the protocol rules, for any reply and clock reading |
| `Ciba.EveryRunIsSafe` | cmd/agent-sidecar/ciba.go:238-315 | in every interleaving of the two callers: nothing follows a denial, an unresolved request is replaced only after its expiry, the token endpoint never polls early, a cached token has over 30 seconds left |
| `Ciba.ServedTokensWereGranted` | cmd/agent-sidecar/ciba.go:168-315 | in every interleaving, each token served was granted in an answered poll and is reported with exactly the time its grant leaves, and the client's interval is never under a second |
| `Ciba.DenialIsAbsorbing` | cmd/agent-sidecar/ciba.go:238-315 | once denied, no section changes anything: no call, no token |
| `Ciba.IntervalGrowsWithSlowDowns` | cmd/agent-sidecar/ciba.go:168-231 | within one request the interval has grown by five seconds per slow_down and by nothing else |
| `Ciba.SectionCallsWhenDue` | cmd/agent-sidecar/ciba.go:238-315 | which calls each section makes, and when none: asking for consent, polling, and serving the cached token iff more than thirty seconds of it are left |
| `Ciba.InitiateMeans` | cmd/agent-sidecar/ciba.go:119-163 | an accepted request expires when the server said and is polled as often as it said, every five seconds when it named no interval, the first time at once; the cached token stays |
| `Ciba.PollMeans` | cmd/agent-sidecar/ciba.go:168-231 | what each reply to a poll changes: token and expiry, the request, the interval, the next poll, the denial; a failed poll changes nothing |
| `Ciba.CibaTokenSource.InitiateOnce` | cmd/agent-sidecar/ciba.go:119-163 | a successful initiation opens a request with its expiry and interval (5 seconds when none is given); a failed one changes nothing |
| `Ciba.CibaTokenSource.PollOnce` | cmd/agent-sidecar/ciba.go:168-231 | one poll moves the client as the reply demands |
| `Ciba.CibaTokenSource.BeginWait` | cmd/agent-sidecar/ciba.go:238-249 | the startup wait initiates only with no request, no token and no denial |
| `Ciba.CibaTokenSource.ContinueWait` | cmd/agent-sidecar/ciba.go:250-272 | one iteration polls only an open request |
| `Ciba.CibaTokenSource.GetToken` | cmd/agent-sidecar/ciba.go:288-315 | serves a token iff it records one served, with its true remaining time; answers denied iff consent is denied, and failed iff the call it had to make failed |
| `Glob.Translate` | internal/attestor/aws_verify.go:193-212 | the builder loop yields the anchored join of the quoted segments |
| `Glob.JoinIsBody` | internal/attestor/aws_verify.go:193-212 | splitting, quoting and joining equals translating character by character |
| `Glob.ParseBody` | internal/attestor/aws_verify.go:193-212 | parsing a translated pattern gives back the pattern's own items |
| `Glob.ItemsMatchGlob` | internal/attestor/aws_verify.go:193-212 | matching those items from any position is matching the glob against the rest |
| `Glob.TranslationPreservesMeaning` | internal/attestor/aws_verify.go:193-212 | the expression is well formed and accepts exactly the glob's strings on every ARN without a line break; empty inputs match nothing |
| `Glob.AgreesEverywhereIffStarless` | internal/attestor/aws_verify.go:193-212 | on all ARNs, line breaks included, it means the glob iff the pattern has no star |

## Left out

- HTTP, JSON, WebSocket, Kubernetes, SPIRE, AWS and Keycloak calls: each is a store operation that succeeds or fails.
- Token, JWT, SVID and signature validation: verified identities are inputs.
- The dashboard, mobile app, push transports, Terraform entry point and certificate tools: no state worth an invariant.
- Pod building and identity injection: field assembly only.
- Templates, policy schema, tenant relations and events: they do not decide any property here.
- The DynamoDB backend: only the in-memory store is modelled.
- The orchestrator's DELETE handler for platform agents: its settle loop is the one in `Reaper` over workloads.
- Organization role tuples, self-serve signup guards and the org loop of user deletion: they would only add easy members.
- Case folding of usernames: the master-administrator test is an arbitrary predicate.
- UTF-8 validity in patterns and paths: strings are sequences of characters.
- The order in which failed and dismissed ids are reported: they are sets.
- SubstrateRuns.ConvergeSettles: record and workload agree on the agent type; `SubstrateRuns.TeardownErasesIffTypesAgree` shows why.
- SpiffePath.BuiltReadsBack: the path builder takes any number of segments; the model has the two its callers pass, agent type and id.
- StaleSweep.RegistersAsInRuns: org suspension is not part of the sweep's model, so it is compared where no org is suspended.
- Hub.NewestWins: heartbeats, liveness and the reader's timeout are not modelled.
- Reaper.ReapSubtree: the wait between passes is only its chance of being cancelled.
- Ciba.EveryRunIsSafe: the sleep of the startup wait is not modelled; each iteration is a section that may run at any time.
- LineageRuns.LineageForever: an id minted for a spawn is taken to be unknown still when its preregistration is stored.
- SuspendedOrg.SuspensionHolds: a record and its tuple change together there; `AuthorityRuns` splits the two writes.
- Suspension.NoLockoutOutlivesItsCause: whole requests one at a time; `SuspensionRuns.LockoutsExactIff` takes them apart.
- Suspension.SuspendedOrgsLockEveryone: whole requests one at a time; `SuspensionRuns.LockoutsExactIff` takes them apart.
