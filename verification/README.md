# OGO protocols in Dafny

OGO is a Kubernetes operator for OpenShell gateways, with an OAuth bridge for OpenShift. This
project models the parts of it that run again and again against a world that changes in between,
and proves what every run keeps:

* the **policy singleton**: the oldest OpenShellPolicy owns the gateway's one policy and hands it over;
* **providers** on a gateway that only merges, and exact replacement on top of it;
* **workspace members**, whose additions are not idempotent and whose identities may be recreated;
* the **auth bridge's store** of pending logins and one-time codes, under all interleavings of its handlers;
* the **gateway controller's** Routes, status and self-signed certificates;
* two **TTL caches**.

## How it is built

For each protocol there are two modules. `...Protocol` (or `CodeStore`, `GatewayStatus`) defines the
state, one atomic pass or lock section as a function of the state and of everything that the code does
not decide itself (list order, outcome of every call, whether a write lands), the steps of the
environment, and runs; the theorems are about all runs. `...Controller` (or `AuthBridge`) holds the
imperative code, with the source's loops and early exits, and every method is proved to do what the
protocol says.

A remote call can fail with or without effect, and a status write can be lost. Two assumptions on runs
appear by name where a theorem needs them: *definite* (a push or an addition that reports an
error had no effect) and *recorded* (the status write after a success lands). Theorems that do not name them hold
without them. For policies, providers and members a run shows that neither can be dropped
(`LostWrite...`, `AmbiguousError...`), and one shows that the policy theorems need distinct creation times
(`TieBreaksTruth`).

Codes are fresh, a minted JWT is not empty and the clock is monotone in the auth bridge. Hashing,
base64 decoding and URL parsing are function parameters.

## What does not hold

Each of these is proved, with the exact condition and a witness.

* A deleted policy owner counts any other policy object as its successor. If every successor leaves before
  its first sync, the policy stays on the gateway with no object left (`CleanIffLastExitClean`,
  `OrphanIffUnfinishedHandover`, `OrphanWitness`).
* updateStatus asks again whether the Gateway API exists. If the answer changes during a pass, the
  status depends on what an earlier pass left behind (`HistoryIgnoredIff`, `FlipExposesHistory`).
* If certificates are regenerated and the pass stops between its two writes while an older client Secret
  exists, server and client keep different CAs and every later pass reports success
  (`MismatchedIffTorn`, `TearSticks`, `TearHappens`).
* Moving a workspace member that has a reconciled subject to another workspace leaves the old grant behind
  (`WorkspaceEditSafeIff`, `MovedGrantStays`, `MoveLeaksGrant`).
* /callback does not tell a one-time code from a state, so it lets an unexpired code through; no redirect
  comes of it (`ExchangeIsTimely`, `CodePassesForState`, `RedirectIsTimely`).
* An existing Route is compared in two fields only, so other changes to it stay (`DirectExactIff`,
  `EnvoyExactIff`, `RetargetedRouteStays`).

## Model

| member | source | states |
|---|---|---|
| `Singleton.OldestByCreationTimestamp` | internal/controller/singleton.go:37-51 | the loop returns the first position, in list order, that holds the earliest creation time |
| `Singleton.FirstOldestIsUnique` | internal/controller/singleton.go:37-51 | that position is unique, so ties are broken by list order alone |
| `SandboxPolicies.BuildSandboxPolicy` | internal/controller/openshellpolicy_controller.go:99-139 | the nested loops over rules, endpoints and binaries build the gateway message `Build(spec)`, ports converted as Go converts int32 to uint32 |
| `SandboxPolicies.BuildRoundTrip` | internal/controller/openshellpolicy_controller.go:99-139 | the spec can be read back out of the message: nothing but the policy name is lost, for any ports and rules |
| `SandboxPolicies.BuildSeparates` | internal/controller/openshellpolicy_controller.go:99-139 | two specs put the same policy on the gateway if and only if they differ in their name only |
| `SandboxPolicies.BuildKeepsFields` | internal/controller/openshellpolicy_controller.go:99-139 | field by field: every rule, endpoint and binary arrives in its place, ports modulo 2^32 |
| `PolicyProtocol.ActiveIsOldest` | internal/controller/openshellpolicy_controller.go:82-95 | with distinct creation times every list order makes the same object active: the oldest |
| `PolicyProtocol.FinalizerComesFirst` | internal/controller/openshellpolicy_controller.go:147-166 | the first pass of an object adds the finalizer and does nothing else |
| `PolicyProtocol.SyncReports` | internal/controller/openshellpolicy_controller.go:168-223 | for every listing and every fate of the calls: which phase, reason, generation and mark a sync pass leaves (Superseded exactly if another object is active, Synced exactly after an accepted push), and exactly when it changes the gateway |
| `PolicyProtocol.DeletionEndsIff` | internal/controller/openshellpolicy_controller.go:255-304 | a deletion pass lets its object go if and only if it carries the finalizer, the write lands, and it is not applied, or another object exists, or the retraction is accepted; what the gateway holds in each case |
| `PolicyProtocol.SyncPassKeepsInv` | internal/controller/openshellpolicy_controller.go:168-223 | a sync pass keeps the invariant under every fate of its list, connect, RPC and status write |
| `PolicyProtocol.DeletePassKeepsInv` | internal/controller/openshellpolicy_controller.go:255-304 | so does a deletion pass |
| `PolicyProtocol.StepKeepsInv` | internal/controller/openshellpolicy_controller.go:147-166 | so does every step: create, edit, delete, reconcile |
| `PolicyProtocol.SyncedPolicyIsLive` | internal/controller/openshellpolicy_controller.go:168-223 | in every run with increasing creation times, with lost status writes and ambiguous RPC errors, an object that reports Synced for its current generation has its built policy on the gateway |
| `PolicyProtocol.AtMostOneApplied` | internal/controller/openshellpolicy_controller.go:168-223 | in the same runs an object marked appliedToGateway is strictly the oldest and the only one marked |
| `PolicyProtocol.GapNeedsRetraction` | internal/controller/openshellpolicy_controller.go:229-304 | for any list order and any tie-break, the gateway policy goes from set to unset only in the deletion pass of an applied object with no other policy object beside it |
| `PolicyProtocol.FinalizerGuardsApplied` | internal/controller/openshellpolicy_controller.go:147-223 | in every run an object marked applied carries the finalizer |
| `PolicyProtocol.LastExitIsCleanIff` | internal/controller/openshellpolicy_controller.go:255-304 | when the last object leaves, the gateway is unset afterwards if and only if it was unset before or the leaving object was marked applied |
| `PolicyProtocol.CleanIffLastExitClean` | internal/controller/openshellpolicy_controller.go:255-304 | the same for every moment of every run at which no policy object exists, with no assumption on calls, writes or creation times |
| `PolicyProtocol.NoOrphanedPolicy` | internal/controller/openshellpolicy_controller.go:255-304 | if no object leaves while a handoff is pending, an empty cluster means an unset gateway policy |
| `PolicyProtocol.OnlyHandoverStartsPending` | internal/controller/openshellpolicy_controller.go:255-304 | with increasing creation times, definite calls and recorded successes, the policy loses its owner only in a deletion pass that lets an applied object go and leaves the policy set |
| `PolicyProtocol.PendingIffUnfinishedHandover` | internal/controller/openshellpolicy_controller.go:229-304 | over every such run, at every moment: the policy is set and no object is marked applied if and only if there was such a handover and no sync has succeeded since |
| `PolicyProtocol.OrphanIffUnfinishedHandover` | internal/controller/openshellpolicy_controller.go:229-304 | so with no object left the policy is still set if and only if the successors of a handover all left before one of them synced |
| `PolicyProtocol.OrphanWitness` | internal/controller/openshellpolicy_controller.go:255-304 | a run in which every call and write succeeds ends with no policy object and the policy still set: the proviso is needed |
| `PolicyProtocol.LostWriteStartsPending` | internal/controller/openshellpolicy_controller.go:215-222 | with one lost status write, and nothing else wrong, a handoff is pending that no handover started |
| `PolicyProtocol.AmbiguousErrorStartsPending` | internal/controller/openshellpolicy_controller.go:203-213 | so it is after one push that reports an error but took effect |
| `PolicyProtocol.TieBreaksTruth` | internal/controller/openshellpolicy_controller.go:168-223 | with equal creation times an object can report Synced while the gateway enforces another one |
| `PolicyController.PolicyReconciler.ResolveActivePolicy` | internal/controller/openshellpolicy_controller.go:82-95 | the object returned is the one and only active one of the listing; an error if and only if there is none |
| `PolicyController.PolicyReconciler.HasSuccessorPolicy` | internal/controller/openshellpolicy_controller.go:229-240 | true if and only if another policy object exists |
| `PolicyController.PolicyReconciler.ReconcileSync` | internal/controller/openshellpolicy_controller.go:168-223 | the imperative pass changes objects and gateway as the protocol on which the run theorems stand |
| `PolicyController.PolicyReconciler.ReconcileDelete` | internal/controller/openshellpolicy_controller.go:255-304 | likewise for the deletion pass, whose end `DeletionEndsIff` states |
| `PolicyController.PolicyReconciler.Reconcile` | internal/controller/openshellpolicy_controller.go:147-166 | likewise for the dispatch on deletion and finalizer |
| `ProviderProtocol.MergeReplacesIff` | internal/controller/openshellprovider_controller.go:134-152 | merging the payload leaves exactly the desired entries if and only if every stale entry of the gateway was recorded |
| `ProviderProtocol.GatewayNameInjective` | internal/controller/openshellprovider_controller.go:68-70 | names of distinct objects are distinct on the gateway for dot-free namespaces and arbitrary names |
| `ProviderProtocol.DottedNamespaceCollides` | internal/controller/openshellprovider_controller.go:68-70 | with a dot in a namespace two objects share a gateway name |
| `ProviderProtocol.StepTouchesOwnProviderOnly` | internal/controller/openshellprovider_controller.go:101-254 | whatever the fate of its calls, a step for one object leaves every other object's gateway provider alone |
| `ProviderProtocol.ProviderIsolation` | internal/controller/openshellprovider_controller.go:101-254 | over any stretch of any run without a pass for an object, its gateway provider does not change |
| `ProviderProtocol.RunKeepsOwnership` | internal/controller/openshellprovider_controller.go:78-254 | in every run, with no assumption on calls or writes, each gateway provider belongs to an existing object that carries the finalizer |
| `ProviderProtocol.PushIsExact` | internal/controller/openshellprovider_controller.go:134-188 | given that stale keys are recorded, a successful push leaves exactly the desired credentials and config, whether it created or updated, and touches one provider |
| `ProviderProtocol.IdlePass` | internal/controller/openshellprovider_controller.go:101-199 | with definite create and update calls, a sync pass that does not succeed changes neither the gateway nor the recorded keys |
| `ProviderProtocol.DeletionKeepsCovered` | internal/controller/openshellprovider_controller.go:203-254 | a deletion pass, whatever its delete call reports, leaves no unrecorded key behind |
| `ProviderProtocol.StepKeepsInv` | internal/controller/openshellprovider_controller.go:78-97 | with definite create and update calls and recorded successes every step keeps "every key the gateway has for an object is recorded in its status" |
| `ProviderProtocol.SyncReplacesExactly` | internal/controller/openshellprovider_controller.go:134-191 | in every run of spec edits, Secret edits, deletions and failed passes with definite create and update calls and recorded successes, from a successful sync until the object's next pass the gateway holds exactly the desired maps, up to empty values |
| `ProviderProtocol.SecretsReachGateway` | internal/controller/openshellprovider_controller.go:107-191 | in the same runs, on the Secrets alone: under namespace.name every credential of the spec resolves and the gateway holds the value its Secret has under the referenced key; an empty value is held exactly if the sync created the provider; no other non-empty credential; config and type are the spec's |
| `ProviderProtocol.FailureIsFirst` | internal/controller/openshellprovider_controller.go:107-132 | references are read in order and the first one that does not resolve decides: unreadable, Secret missing or key missing |
| `ProviderProtocol.SyncReports` | internal/controller/openshellprovider_controller.go:101-199 | phase, reason, generation and recorded keys after every sync pass, from the lookups, the calls and the stored type |
| `ProviderProtocol.DeletionEndsIff` | internal/controller/openshellprovider_controller.go:203-254 | exactly when a deletion pass lets its object go, removes the gateway provider, or reports DeletionBlocked |
| `ProviderProtocol.FinalizerComesFirst` | internal/controller/openshellprovider_controller.go:78-97 | the first pass of an object adds the finalizer and does nothing else |
| `ProviderProtocol.DeletedProviderIsGone` | internal/controller/openshellprovider_controller.go:203-254 | in every run, with no assumption on calls or writes, an object that does not exist has no gateway provider |
| `ProviderProtocol.LostWriteLeavesStaleKey` | internal/controller/openshellprovider_controller.go:190-191 | one lost status write lets a dropped key survive a later successful sync: recording is needed |
| `ProviderProtocol.AmbiguousErrorLeavesStaleKey` | internal/controller/openshellprovider_controller.go:168-188 | so does one create that reports an error but took effect: definite calls are needed |
| `ProviderController.MergeStringMap` | internal/controller/fake_gateway_test.go:187-197 | the loop over a clone sets, deletes and leaves untouched as `Merge` says |
| `ProviderController.BuildPayload` | internal/controller/openshellprovider_controller.go:134-152 | the loops give the desired entries plus an empty value for every recorded key no longer desired |
| `ProviderController.ProviderReconciler.ResolveCredentials` | internal/controller/openshellprovider_controller.go:107-132 | reads references in order, stops at the first that does not resolve and names its kind, else returns all desired credentials |
| `ProviderController.ProviderReconciler.CreateProvider` | internal/controller/fake_gateway_test.go:201-217 | creates only an absent provider and reports a present one |
| `ProviderController.ProviderReconciler.UpdateProvider` | internal/controller/fake_gateway_test.go:222-243 | merges into the stored provider, refuses another type and reports a missing provider |
| `ProviderController.ProviderReconciler.ReconcileSync` | internal/controller/openshellprovider_controller.go:101-199 | the imperative pass changes objects and gateway as the protocol |
| `ProviderController.ProviderReconciler.ReconcileDelete` | internal/controller/openshellprovider_controller.go:203-254 | likewise for the deletion pass, blocked deletions included |
| `ProviderController.ProviderReconciler.Reconcile` | internal/controller/openshellprovider_controller.go:78-97 | likewise for the dispatch |
| `MemberProtocol.AddMemberOutcomes` | internal/controller/openshellworkspacemember_controller.go:251-300 | for every member table within the cap and definite calls: success means exactly the wanted role and nothing else changed, MembershipRemoved means it was there with another role and is gone, any other error leaves the table unchanged; without failing calls it succeeds |
| `MemberProtocol.RepeatIsNoOp` | internal/controller/openshellworkspacemember_controller.go:251-283 | a repeat after a success changes nothing, whatever its calls report, and itself succeeds when none of them fails |
| `MemberProtocol.AddedIsExact` | internal/controller/openshellworkspacemember_controller.go:251-283 | a success is exact even with ambiguous errors and any listing |
| `MemberProtocol.GrantKeepsInv` | internal/controller/openshellworkspacemember_controller.go:146-180 | with definite adds and recorded grants, granting the current identity keeps grants within the recorded subject and what was abandoned, also between its calls |
| `MemberProtocol.PassKeepsInv` | internal/controller/openshellworkspacemember_controller.go:74-93 | under the same assumptions so does every pass, sync or deletion, whatever its removals report |
| `MemberProtocol.GrantsAreRecorded` | internal/controller/openshellworkspacemember_controller.go:97-210 | in every run with definite adds and recorded grants in which the object moves only while status.reconciledSubject is empty, what it granted and nobody removed is at most the one membership its status names, and nothing once the object is gone |
| `MemberProtocol.GrantsAreRecordedOrAbandoned` | internal/controller/openshellworkspacemember_controller.go:97-210 | in the same runs with arbitrary moves, at most that membership and those that moves took out of its sight |
| `MemberProtocol.NeverTwoGrants` | internal/controller/openshellworkspacemember_controller.go:97-180 | in the same runs, not even between two calls of a pass do an old and a recreated identity hold a grant together, apart from abandoned ones |
| `MemberProtocol.SyncedMeansMember` | internal/controller/openshellworkspacemember_controller.go:97-180 | a pass that reads its ServiceAccount and reports Synced leaves the current identity as Admin for the role "admin" and as User for any other, the replaced identity out, and everybody else untouched |
| `MemberProtocol.SyncedRoleStays` | internal/controller/openshellworkspacemember_controller.go:97-180 | in every run that role stays until the next pass or somebody else's change of the entry |
| `MemberProtocol.CleanPassSyncs` | internal/controller/openshellworkspacemember_controller.go:97-180 | a pass whose calls are delivered, in a workspace within the listing cap, reports Synced for the current identity |
| `MemberProtocol.FailedGrantReports` | internal/controller/openshellworkspacemember_controller.go:157-169 | a pass that fails in the exchange reports GatewayUnreachable and goes on remembering the identity exactly if it did before and its old role was not taken away |
| `MemberProtocol.FailedRemovalReports` | internal/controller/openshellworkspacemember_controller.go:145-156 | a replaced identity that cannot be removed is still remembered and the new one gets nothing |
| `MemberProtocol.VanishedIdentityIsRemoved` | internal/controller/openshellworkspacemember_controller.go:97-135 | a vanished ServiceAccount loses its membership, and the status forgets it, once the removal is delivered |
| `MemberProtocol.EarlyStopReports` | internal/controller/openshellworkspacemember_controller.go:97-143 | a pass that stops before it reaches the gateway changes nothing there and says why |
| `MemberProtocol.DeletionEndsIff` | internal/controller/openshellworkspacemember_controller.go:184-210 | exactly when a deletion pass lets its object go, and what it removes |
| `MemberProtocol.WorkspaceEditSafeIff` | internal/controller/openshellworkspacemember_controller.go:97-210 | for what a caller sees of the object: an edit keeps every grant accounted for, whatever the gateway holds, if and only if it stays in the workspace or status.reconciledSubject is empty |
| `MemberProtocol.MovedGrantStays` | internal/controller/openshellworkspacemember_controller.go:97-210 | in every run a grant in a workspace the object moved away from stays, its deletion included, until somebody else removes it |
| `MemberProtocol.MoveLeaksGrant` | internal/controller/openshellworkspacemember_controller.go:184-210 | a run of grant, move and deletion in which every call and write succeeds ends with the object gone and the grant still there |
| `MemberProtocol.LostWriteLeaksGrant` | internal/controller/openshellworkspacemember_controller.go:97-210 | one lost status write and a deletion leave a membership no object remembers |
| `MemberProtocol.AmbiguousErrorLeaksGrant` | internal/controller/openshellworkspacemember_controller.go:251-283 | so do one add that reports an error but took effect, and a deletion |
| `MemberController.MemberReconciler.AddWorkspaceMember` | internal/controller/fake_gateway_test.go:113-130 | adds an absent member, reports a present one and keeps its role |
| `MemberController.MemberReconciler.RemoveWorkspaceMember` | internal/controller/fake_gateway_test.go:132-147 | removes the member; absence is no error |
| `MemberController.MemberReconciler.FindMemberRole` | internal/controller/openshellworkspacemember_controller.go:289-300 | the loop over the listing finds the role of the subject or reports it missing |
| `MemberController.MemberReconciler.AddMemberWithClient` | internal/controller/openshellworkspacemember_controller.go:251-283 | the exchange ends and passes through the gateway states the protocol gives |
| `MemberController.MemberReconciler.ReconcileSync` | internal/controller/openshellworkspacemember_controller.go:97-180 | the imperative pass changes object and gateway as the protocol, call by call |
| `MemberController.MemberReconciler.ReconcileDelete` | internal/controller/openshellworkspacemember_controller.go:184-210 | likewise for the deletion pass |
| `MemberController.MemberReconciler.Reconcile` | internal/controller/openshellworkspacemember_controller.go:74-93 | likewise for the dispatch |
| `AuthState.HexEncodeInjective` | internal/authbridge/server.go:436-442 | distinct random bytes give distinct codes |
| `AuthState.SplitState` | internal/authbridge/server.go:444-451 | the scan splits at the first colon; without one the client part is empty |
| `AuthState.StateRoundTrip` | internal/authbridge/server.go:444-451 | for every generated code and every client state, colons included, splitting what authorize built returns both parts |
| `AuthState.NoColonNoClientState` | internal/authbridge/server.go:444-451 | without a colon the whole string is the bridge's state and the client's is empty |
| `RedirectURIs.BridgeConfig` | internal/authbridge/server.go:143-164 | the store is given exactly the accepted redirect URIs, and each of them can be redirected to |
| `RedirectURIs.CodesGoHome` | internal/authbridge/server.go:143-164 | over all interleavings one-time codes are sent only to http or https URIs on localhost or 127.0.0.1, with or without port, or under /callback on the issuer's host |
| `RedirectURIs.BadRedirectIff` | internal/authbridge/server.go:168-178 | an /authorize request is answered with a bad redirect if and only if its URI is no such URI, and the store is then as it was |
| `CodeStore.StoreKeepsShape` | internal/authbridge/server.go:166-330 | over all interleavings the store is within its cap and every entry, stored or in flight, is a state or a code |
| `CodeStore.ResponsesAreSound` | internal/authbridge/server.go:168-330 | over all interleavings /token answers only with a code's own JWT, never for a state, and a callback redirects only to an accepted URI |
| `CodeStore.EventKeepsBalance` | internal/authbridge/server.go:168-434 | every lock section keeps the books: who is stored, in flight, answered or dropped |
| `CodeStore.AuthorizeConservation` | internal/authbridge/server.go:168-330 | over all interleavings with fresh codes: /authorize requests accepted = entries stored + callbacks in flight + JWTs delivered by /token + attempts dropped, counted over the answers given; no request is answered twice, no code consumed twice |
| `CodeStore.BooksCountAnswers` | internal/authbridge/server.go:168-330 | over a whole run the books hold as many attempts as /authorize requests were sent on and as many answers as /token delivered JWTs |
| `CodeStore.SweeperIsTransparent` | internal/authbridge/server.go:416-434 | a store that sweeps at arbitrary moments and one that never does give the same answers to every request sequence in which the latter does not hit the cap |
| `CodeStore.SweepMakesRoom` | internal/authbridge/server.go:416-434 | for every cap, from a full store of expired entries, the answers do differ: the proviso is needed |
| `CodeStore.StoreFillsUp` | internal/authbridge/server.go:168-202 | such a store is reached for every cap |
| `CodeStore.EntryPersists` | internal/authbridge/server.go:168-434 | given fresh codes, whatever other handlers and the sweeper do, an unexpired entry nobody takes stays as it is |
| `CodeStore.FlightPersists` | internal/authbridge/server.go:204-291 | what a callback took out stays with it until it ends, whatever other handlers and the sweeper do |
| `CodeStore.CallbackFindsLogin` | internal/authbridge/server.go:192-222 | the callback for a state /authorize handed out finds that entry within its lifetime and keeps the client's own state |
| `CodeStore.CallbackReturnsToClient` | internal/authbridge/server.go:204-291 | the second half of that callback redirects to the URI the client gave to /authorize, with the one-time code and the client's own state |
| `CodeStore.CodeIsRedeemable` | internal/authbridge/server.go:262-330 | a one-time code presented in time, and not before, is answered with the JWT it was issued for |
| `CodeStore.TokenIsTimely` | internal/authbridge/server.go:262-330 | the converse: over all interleavings a JWT is delivered only for a code that a callback issued for that JWT, no later than 60 seconds after |
| `CodeStore.ExchangeIsTimely` | internal/authbridge/server.go:182-222 | a callback is let through only for a state that /authorize handed out no more than 300 seconds ago, or for a one-time code of no more than 60 seconds given in its place; which of the two is told by the entry |
| `CodeStore.CodePassesForState` | internal/authbridge/server.go:204-222 | the second case happens: a run in which a one-time code passes for a state |
| `CodeStore.RedirectIsTimely` | internal/authbridge/server.go:182-291 | but a redirect always goes back to an /authorize no more than 300 seconds before its callback, to that request's URI |
| `CodeStore.PresentedIsGone` | internal/authbridge/server.go:212-216 | whatever the answer, an entry that was presented is not in the store afterwards |
| `CodeStore.BusyMeansFull` | internal/authbridge/server.go:166-186 | the store holds at most 10000 entries and only a full one turns a request away |
| `CodeStore.LoginCompletes` | internal/authbridge/server.go:168-330 | under every interleaving with fresh codes, a login whose steps keep to time goes through from /authorize to /token: redirect to the client's URI with its state, then the JWT minted for it |
| `AuthBridge.Server.HandleAuthorize` | internal/authbridge/server.go:168-202 | the lock section changes the map and answers as the store's event |
| `AuthBridge.Server.HandleCallbackTake` | internal/authbridge/server.go:204-222 | likewise for the first half of /callback |
| `AuthBridge.Server.HandleCallbackFail` | internal/authbridge/server.go:224-260 | likewise for a callback that ends between its lock sections |
| `AuthBridge.Server.HandleCallbackStore` | internal/authbridge/server.go:262-291 | likewise for the second half of /callback |
| `AuthBridge.Server.HandleToken` | internal/authbridge/server.go:293-330 | likewise for /token |
| `AuthBridge.Server.SweepExpiredCodes` | internal/authbridge/server.go:416-434 | likewise for one tick of the sweeper |
| `AuthBridge.DeleteExpired` | internal/authbridge/server.go:424-431 | the loop removes exactly the entries expired at the given time |
| `GroupAccess.ListedPlainOrEncoded` | internal/authbridge/openshift.go:270-342 | a ServiceAccount is listed in plain form or in b64 form and in no other way |
| `GroupAccess.CheckGroupMemberships` | internal/authbridge/openshift.go:270-342 | returns exactly the non-empty configured groups whose Group object names the user, and fails exactly when the bridge's own token is unreadable or empty or a lookup fails |
| `GroupAccess.GetUserInfo` | internal/authbridge/openshift.go:127-201 | the groups are exactly the reported ones and, for a ServiceAccount, those whose Group object names it; the UID falls back to the token review; the three ways to fail are exact |
| `GroupAccess.IsAuthorized` | internal/authbridge/server.go:388-401 | true if and only if the user is kube:admin or the non-empty user group is among the groups |
| `GroupAccess.MapRoles` | internal/authbridge/server.go:403-414 | the admin role is there if and only if the non-empty admin group is among the groups |
| `GroupAccess.Decide` | internal/authbridge/openshift.go:161-201 | end to end, on the group data: unless a lookup fails, a ServiceAccount gets a token if and only if the non-empty UserGroup is reported or its Group object lists the user in plain or b64 form, and openshell-admin if and only if the same holds for AdminGroup; any other identity by reported groups alone, kube:admin always |
| `RouteProtocol.FirstByNameIgnoresOrder` | internal/controller/openshellgateway_controller.go:1526-1693 | the proxy Service chosen does not depend on the order in which the API lists the Services |
| `RouteProtocol.UnmanagedRoutesUntouched` | internal/controller/openshellgateway_controller.go:242-303 | no routing pass, successful or not, creates, changes or deletes a Route that is not the gateway's own |
| `RouteProtocol.UnlabelledRouteStays` | internal/controller/openshellgateway_controller.go:1208-1211 | on labels: a Route without managed-by ogo and this instance stays as it is in every pass, and none appears |
| `RouteProtocol.DirectSettles` | internal/controller/openshellgateway_controller.go:1213-1274 | a successful reconcileRoute leaves its Route with the wanted host and termination and no other Route changed |
| `RouteProtocol.EnvoySettles` | internal/controller/openshellgateway_controller.go:1526-1693 | a successful reconcileEnvoyRoute leaves its Route with the wanted host and Service and no other Route changed; without a hostname or a proxy Service it changes nothing |
| `RouteProtocol.AuthSettles` | internal/controller/openshellgateway_controller.go:2057-2139 | a successful reconcileAuthBridgeRoute leaves its Route with the wanted host, TLS and CA and no other Route changed |
| `RouteProtocol.RoutesConverge` | internal/controller/openshellgateway_controller.go:242-303 | from any Route set a successful OpenShift pass leaves no obsolete managed Route and settles the desired ones, except that the Envoy Route stays as it was without a hostname or a proxy Service, and the auth Route without a hostname |
| `RouteProtocol.LabelledRoutesAreWanted` | internal/controller/openshellgateway_controller.go:1154-1211 | on labels and names: a labelled Route under one of the three names is one the mode wants |
| `RouteProtocol.RoutesShowSpec` | internal/controller/openshellgateway_controller.go:1213-1274 | host, termination, Service and, for the auth Route, every field including the CA, stated from hostname, tlsEnabled and the published CA |
| `RouteProtocol.SuffixFollowsFirstDot` | internal/controller/openshellgateway_controller.go:2020-2025 | the domain is what follows the first dot of the hostname, or all of it |
| `RouteProtocol.NewRoutesAreLabelled` | internal/controller/openshellgateway_controller.go:1956-1962 | a Route the pass creates carries the operator's four labels |
| `RouteProtocol.CleanPassSucceeds` | internal/controller/openshellgateway_controller.go:242-303 | a pass succeeds when its calls do, no foreign Route is in the way and the CA is published |
| `RouteProtocol.SecondPassIsIdle` | internal/controller/openshellgateway_controller.go:242-303 | a second pass over the same inputs changes no Route, whatever its own calls report |
| `RouteProtocol.DirectExactIff` | internal/controller/openshellgateway_controller.go:1240-1274 | after a successful pass the direct Route is as wanted in every field if and only if it was missing, drifted in host or termination, or as wanted before |
| `RouteProtocol.EnvoyExactIff` | internal/controller/openshellgateway_controller.go:1640-1693 | the same for the Envoy Route, with drift in host or Service |
| `RouteProtocol.RetargetedRouteStays` | internal/controller/openshellgateway_controller.go:1240-1274 | a direct Route that was pointed at another Service keeps pointing there |
| `RouteController.PickService` | internal/controller/openshellgateway_controller.go:1526-1693 | the loop returns the Service that sorting by name puts first |
| `RouteController.RouteReconciler.ReconcileObsoleteRoutes` | internal/controller/openshellgateway_controller.go:1154-1188 | deletes exactly the obsolete Routes, or some of them when it fails |
| `RouteController.RouteReconciler.DeleteManagedRoutes` | internal/controller/openshellgateway_controller.go:1190-1211 | on gateway deletion every managed Route goes and every other Route stays, also when it fails halfway |
| `RouteController.RouteReconciler.ReconcileRoute` | internal/controller/openshellgateway_controller.go:1213-1274 | the imperative reconciler changes Routes as the protocol |
| `RouteController.RouteReconciler.ReconcileEnvoyRoute` | internal/controller/openshellgateway_controller.go:1526-1693 | likewise, with the Service first by name |
| `RouteController.RouteReconciler.ReconcileAuthBridgeRoute` | internal/controller/openshellgateway_controller.go:2057-2139 | likewise |
| `RouteController.RouteReconciler.ReconcileOpenShiftRouting` | internal/controller/openshellgateway_controller.go:242-303 | the whole pass changes Routes as the protocol's routing pass |
| `GatewayStatus.FinishedIsHonest` | internal/controller/openshellgateway_controller.go:1710-1855 | whatever was stored, updateStatus writes Running only with Available, settled, not Degraded and unblocked |
| `GatewayStatus.RunningIsHonest` | internal/controller/openshellgateway_controller.go:1710-1873 | over every run of passes, finished, failed or with lost writes, Phase Running implies Available=True, Progressing=False, Degraded=False and no EnvoyRouteReady or BrowserSSOReady that is not True |
| `GatewayStatus.ReportOnOpenShift` | internal/controller/openshellgateway_controller.go:1710-1855 | on the Deployment's own numbers: a finished OpenShift pass reports Running exactly when at least one and as many pods are ready as asked for, login is not missing its hostname and the Envoy Route is not broken; the other conditions and reasons likewise |
| `GatewayStatus.BlockersOnOpenShift` | internal/controller/openshellgateway_controller.go:1710-1855 | what it reports about browser login and Envoy Route, and that inactive ones are dropped |
| `GatewayStatus.DependenciesAreReported` | internal/controller/openshellgateway_controller.go:1825-1843 | dependency conditions are reported as the pass found them |
| `GatewayStatus.EarlyEndReports` | internal/controller/openshellgateway_controller.go:1857-1873 | a pass that ends early reports Failed and why, and keeps every other condition |
| `GatewayStatus.MissingDeploymentReports` | internal/controller/openshellgateway_controller.go:1710-1740 | without its Deployment the gateway is Failed and not available, and nothing else changes |
| `GatewayStatus.BlockingIsRefreshed` | internal/controller/openshellgateway_controller.go:1710-1855 | on OpenShift a pass decides both blocking conditions anew, unless the Gateway API appears in its course |
| `GatewayStatus.StaleConditionDecides` | internal/controller/openshellgateway_controller.go:1710-1855 | if it does, the stored condition decides |
| `GatewayStatus.FlipExposesHistory` | internal/controller/openshellgateway_controller.go:1710-1855 | there, an empty history and a history of one waiting pass lead to different reports |
| `GatewayStatus.HistoryIgnoredIff` | internal/controller/openshellgateway_controller.go:1710-1855 | on an OpenShift pass with a Deployment the phase and main conditions are independent of earlier passes if and only if not: the Gateway API appears during the pass, pods are ready and no hostname is missing |
| `StatusController.CarryOver` | internal/controller/openshellgateway_controller.go:1825-1843 | the loop carries over exactly the collected dependency, Envoy and SSO conditions that are active |
| `StatusController.SetMainConditions` | internal/controller/openshellgateway_controller.go:1773-1823 | phase and main conditions as a function of readiness and the two blocking answers |
| `StatusController.StatusReconciler.Collect` | internal/controller/openshellgateway_controller.go:242-303 | the conditions a pass sets on its copy |
| `StatusController.StatusReconciler.UpdateStatus` | internal/controller/openshellgateway_controller.go:1710-1855 | the status written, or none when reading or writing fails |
| `StatusController.StatusReconciler.Reconcile` | internal/controller/openshellgateway_controller.go:121-235 | one pass as the status protocol, with both error endings |
| `SanEncoding.HashSANs` | internal/pki/pki.go:172-179 | the loop hashes every SAN followed by a NUL byte |
| `SanEncoding.EncodeInjective` | internal/pki/pki.go:172-179 | on lists of NUL-free SANs different lists are hashed as different bytes |
| `SanEncoding.SameEncodingIff` | internal/pki/pki.go:172-179 | on any lists the bytes agree if and only if the lists agree after cutting every SAN at its NUL bytes |
| `SanEncoding.NulCollides` | internal/pki/pki.go:172-179 | a SAN with a NUL byte is hashed like the two SANs around it |
| `SanEncoding.SANsDetermineGateway` | internal/controller/openshellgateway_controller.go:1968-1987 | two gateways have the same SANs if and only if name, target namespace and hostname agree |
| `SanEncoding.DriftIsExact` | internal/controller/openshellgateway_controller.go:570-575 | so for NUL-free specs the bytes under the hash change exactly when one of the three does |
| `SanEncoding.SANsCoverNames` | internal/controller/openshellgateway_controller.go:1968-1987 | the list has the in-cluster names, the local names and, with a hostname, that and the auth host, in eight or ten entries |
| `SanEncoding.AuthHostIsCovered` | internal/controller/openshellgateway_controller.go:1981-1986 | the host of the auth Route is among the SANs |
| `PkiProtocol.StepKeepsInv` | internal/controller/openshellgateway_controller.go:570-624 | the annotation always describes the certificate beside it, and CAs are never reused |
| `PkiProtocol.PassMismatches` | internal/controller/openshellgateway_controller.go:570-624 | a pass gives its Secret pair two CAs if and only if it stops between the two writes while an older client Secret exists |
| `PkiProtocol.MismatchedIffTorn` | internal/controller/openshellgateway_controller.go:570-624 | over every run the Secrets disagree on their CA if and only if the last step that decided about the pair was such a pass |
| `PkiProtocol.SuccessfulPass` | internal/controller/openshellgateway_controller.go:570-624 | after any run of passes, spec edits and lost Secrets or annotations, a successful pass leaves both Secrets, with one CA if and only if no tear is outstanding, and the server's SANs are the spec's, unless the hash collides |
| `PkiProtocol.PassSucceedsIff` | internal/controller/openshellgateway_controller.go:570-624 | exactly when a pass succeeds, and that it touches nothing when both Secrets are there with the right hash |
| `PkiProtocol.OneSharedCA` | internal/controller/openshellgateway_controller.go:594-623 | with no tear in the run the Secrets of every namespace share their CA at every moment |
| `PkiProtocol.TearSticks` | internal/controller/openshellgateway_controller.go:588-592 | no number of later passes mends a torn pair: each finds it up to date |
| `PkiProtocol.TearHappens` | internal/controller/openshellgateway_controller.go:594-623 | a three-step run ends in a pass that succeeds on two CAs |
| `PkiController.TlsReconciler.ReconcileSelfSignedTLS` | internal/controller/openshellgateway_controller.go:570-624 | the imperative pass changes the Secrets as the protocol |
| `DetectionCache.AnswerIsRecentProbe` | internal/openshift/detect.go:37-51 | every answer is the latest probe's, made by this call or less than 5 minutes (true) or 30 seconds (false) ago |
| `DetectionCache.ProbesAreSpaced` | internal/openshift/detect.go:37-51 | a call probes if and only if the whole TTL of the last answer has passed |
| `DetectionCache.ChangeIsNoticed` | internal/openshift/detect.go:37-51 | once every probe gives the same answer, a wrong one survives no longer than its own TTL |
| `DetectionCache.CachedDetection.Check` | internal/openshift/detect.go:37-51 | the method's state and answer are those of the call sequence |
| `CertificateCache.FailsIffNothingLoads` | cmd/auth-bridge/main.go:131-158 | a call fails if and only if no call up to it could load a pair |
| `CertificateCache.NoFailureAfterSuccess` | cmd/auth-bridge/main.go:131-158 | after the first success no call fails |
| `CertificateCache.AnswerIsLatestLoad` | cmd/auth-bridge/main.go:131-158 | the result is the latest pair loaded; since then the files were tried at exactly the calls that found it stale, and every try failed |
| `CertificateCache.StaleOnlyAfterFailure` | cmd/auth-bridge/main.go:131-158 | a pair past its TTL is handed out only by a call that tried the files itself and failed |
| `CertificateCache.DynamicTLSConfig.LoadCertificate` | cmd/auth-bridge/main.go:131-158 | the method's state and answer are those of the call sequence |

## Left out

- Kubernetes client, informers and requeue timing: reads and writes are atomic with a chosen outcome, and a pass reads current objects; stale caches are not modelled.
- Finalizers of others: an object leaves the cluster when its own finalizer is removed.
- Two objects of different gateways with one name: the PKI model follows the Secrets of one gateway.
- gRPC dialing, TLS credentials and token minting: only whether the connection succeeds.
- Key generation, X.509, JWT signing, SHA-256, base64 and URL parsing: library code.
- Checks of /token and /callback before their lock sections (method, grant type, missing parameters, error from the provider): they answer without touching the store.
- Deployment, Service, RBAC, NetworkPolicy, ConfigMap and TOML construction, and the dependency reconcilers: they would only add easy members.
- Routes and status history on clusters other than OpenShift, where EnvoyRouteReady is not refreshed.
- Log and message texts; of conditions the type, status and reason are kept. Timestamps of conditions are not.
- ProviderController.BuildPayload: recorded key lists are sets, since their order decides nothing.
- ProviderController.ProviderReconciler.ResolveCredentials: the sorted order in which references are read is a parameter; it decides only which broken reference is reported.
- RouteProtocol.DirectSettles: host and termination only, because reconcileRoute does not compare the target Service or port of an existing Route; DirectExactIff says when the rest is right too.
- RouteProtocol.EnvoySettles: host and Service only, because reconcileEnvoyRoute compares nothing else; EnvoyExactIff says when the rest is right too.
- RouteProtocol.UnmanagedRoutesUntouched: the label comparison is modelled for the labels of a named gateway.
- DetectionCache.AnswerIsRecentProbe: the age of a probe counts from its end, since the expiry is computed after the probe returned.
