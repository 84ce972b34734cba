# Lehen hub: a verified model

This project models the decision-making core of the Lehen hub and proves properties of it
with Dafny 4.11 (`dafny verify dfyconfig.toml`). The hub lets users connect data sources.
An administrator creates integration instances and maps realm roles to instances; users
grant, revoke and use connections on them; a consent log and an audit log record what
happened; a break-glass local administrator and a JWKS cache guard the doors.

## How the model is laid out

Every part has a specification over values and, where the source updates state in place,
imperative code proved equal to it. Theorems are then about the specification, and hold for
every run of it.

- **The connection ledger.** `Ledger` gives each service call as a step on the tables
  (instances, role mapping, LLM row, audit log, connection rows, consent events, OAuth flows,
  token-endpoint calls). `Services` has the database and the service classes with the
  source's loops, updates by id and cascade hooks, each method proved to perform the step.
  `LedgerInvariants`, `SharedIds`, `LedgerRuns`, `LedgerEffects`, `Lifecycle`, `Conservation`,
  `OAuthRuns`, `Reconnect` and `Me` hold the theorems, `Witnesses` the counterexample runs.
  `Outcomes` says what every call answers, writes, logs and requests, in terms of stored rows,
  instance documents, the stored mapping and the provider's answers only. Runs start from
  empty tables and mix user calls, token fetches and admin calls in any order, with any clock
  readings.
- **The admin side.** `Registry`, `Integrations`, `Siam`, `LlmConfig`, `AuditLog` and `Admin`
  are the admin tables and calls; `InstanceLife`, `LlmLens` and `AuditRuns` are about them,
  and `AdminOutcomes` and `LlmOutcomes` say what is accepted, stored, shown and logged.
- **The local administrator.** `SlidingWindow`, `LocalAdmin` and `AdminSurface` are the
  limiter, the account and the request hook; `LoginLimits` and the second half of
  `AdminSurface` are about whole runs, with rotations and process restarts. `LoginOutcomes`
  says how every login of every run ends, from the calls made before it.
- **The JWKS cache.** `Jwks` cuts `get_keys` at its two suspension points (the lock and the
  fetch) and interleaves any number of callers between the pieces; `Spacing` counts.
- **Formats.** `RowIds`, `Strings`, `Base64Url`, `JsonText`, `Envelope` and `OAuthState`.

## Where a natural claim is false

- Row ids `user_sub:instance_id:seq` are not always distinct. A user's rows on an instance
  have theirs to themselves exactly when no other (user, instance) pair of the table joins to
  the same text (`IdsAreOwnIffUnjoined`); colon-free subs, or instance ids, suffice
  (`ColonFreeGivesDistinctIds`). Otherwise `UPDATE ... WHERE id` reaches other users' rows
  (`CollidingRevokeReachesOtherUser`, `CollidingFetchReachesOtherUser`). What fails then, and
  exactly when: the balance (`RevocationKeepsBalanceIff`), a row's story in the log
  (`RevocationTellsIff`), a row's moves (`UpdateMovesIff`, `FetchKeepsWellIff`), the reach of a
  cascade (`BatchRevokeIsExact`, `SiamRevokeIsExact`, `ReplaceClosesOrphans`). The guarantees
  that need the condition ask it only of the row, or the user and instance, they are about.
- Going stale does not make room for a reconnect: a callback with all else in order is refused
  exactly while an active row, stale ones included, holds the account
  (`ReconnectRefusedIffHeld`; `StaleRowBlocksReconnect` is such a run).
- The comment on `revoke_for_users_no_longer_authorized` speaks of the owning user's roles;
  the code asks whether any role lists the instance (`OwnerLosesRoleKeepsRow`). Owners keep
  only what they may access exactly when the new mapping lists each such instance, if at all,
  under a role of theirs (`OwnersKeepAccessIff`).
- A SIAM admin request leaves the bootstrap account disabled exactly when this process had
  not looked before, or the account was not enabled anyway (`WhenSiamLoginDisables`);
  `RotationAfterLookSurvives` is an example of the other case.
- The negative window of the JWKS cache is not looked at again under the lock. A fetch respects
  it exactly when that check would still pass there (`RespectsWindowIff`), in particular when no
  failure was recorded during the wait (`UndisturbedCallerRespectsWindow`); contending callers
  need not (`ContendingCallersAreNotSpaced`).
- After an accepted LLM update a required secret is set exactly when it was not sent empty
  (`WhenRequiredSecretIsSet`); `EmptyRequiredSecretIsAccepted` is the other case.

## Model

| member | source | states |
|---|---|---|
| LedgerInvariants.RunKeeps | hub/src/lehen_hub/user/connections_service.py:127-599 | every run from empty tables keeps: active rows only on open instances, gap-free numbering with ids spelled from it, one active row per account |
| LedgerInvariants.CascadeKeeps | hub/src/lehen_hub/user/connections_service.py:470-517 | an admin change followed by a cascade that selects every active row on an instance no longer open restores the invariants |
| LedgerRuns.ActiveRowsAreAuthorized | hub/src/lehen_hub/user/connections_service.py:137-154 | in every reachable state an active row's instance exists, is enabled and is listed under some role |
| LedgerRuns.OrphanSkipIsHarmless | hub/src/lehen_hub/user/connections_service.py:548-569 | in every reachable state the SIAM cascade's two skip branches together spare exactly the rows the new mapping still lists |
| LedgerRuns.ReplaceClosesOrphans | hub/src/lehen_hub/admin/siam_service.py:63-101 | for any table: a replace stores the normal form and closes every active row whose instance some role listed before and none after; any other row stays exactly when it shares its id with none of those or the update changes nothing on it |
| LedgerRuns.ReplaceOnOwnRow | hub/src/lehen_hub/user/connections_service.py:543-599 | so a row whose id is its own is closed or left alone as its own instance says |
| LedgerRuns.OwnersKeepAccessIff | hub/src/lehen_hub/user/connections_service.py:548-569 | in every run, after a replace an active row whose id is its own is left only to owners with access exactly when the new mapping, if it lists the instance, lists it under a role of the owner |
| Witnesses.OwnerLosesRoleKeepsRow | hub/src/lehen_hub/user/connections_service.py:555-563 | a run from empty tables after which a row is active although the gate refuses its owner |
| LedgerRuns.SingleMeansSingle | hub/src/lehen_hub/user/connections_service.py:156-172 | in runs through the routes a user has at most one active row on an instance of a single-cardinality type, also after the id changed type by delete and re-create |
| LedgerRuns.NamedRun | hub/src/lehen_hub/api/me_connections.py:65-71 | in such runs active rows with a subject sit only on `outlook-graph` instances |
| LedgerRuns.AdminKeepsTypes | hub/src/lehen_hub/admin/integrations_service.py:167-229 | no admin call changes the type of an instance that stays |
| LedgerRuns.OneActiveRowPerSubject | hub/src/lehen_hub/user/connections_service.py:406-422 | in every run two active rows of one (user, instance, subject) are the same row |
| LedgerRuns.NumbersCountUp | hub/src/lehen_hub/user/connections_service.py:734-742 | for each user and instance the sequence numbers in insertion order are 0, 1, 2, … without gap |
| SharedIds.IdsAreOwnIffUnjoined | hub/src/lehen_hub/user/connections_service.py:95-96 | a user's rows on an instance have their ids to themselves exactly when no other pair of the table joins to the same text |
| SharedIds.IdsAreDistinctIffJoinFree | hub/src/lehen_hub/user/connections_service.py:95-96 | all row ids are pairwise distinct exactly when no two pairs of the table join to the same text |
| LedgerEffects.ColonFreeGivesDistinctIds | hub/src/lehen_hub/user/connections_service.py:95-96 | so they are in every run in which the subs of the connecting users, or the instances they name, are colon-free |
| LedgerEffects.RowsNameCallers | hub/src/lehen_hub/user/connections_service.py:180-195 | every row of every run names the user and the instance of a call that connects |
| SharedIds.SelectedById | hub/src/lehen_hub/user/connections_service.py:253-258 | a row whose id is its own is reached by the ids of a query exactly when the query selects it |
| RowIds.RowIdCollision | hub/src/lehen_hub/user/connections_service.py:95-96 | two triples share a row id exactly when they share the number and the joined prefix, decimal printing included |
| RowIds.JoinIsInjective | hub/src/lehen_hub/user/connections_service.py:95-96 | colon-free subs, or colon-free instance ids, make the prefix unambiguous |
| RowIds.JoinCollides | hub/src/lehen_hub/user/connections_service.py:95-96 | otherwise two different pairs can share their first row id |
| RowIds.DecimalReads | hub/src/lehen_hub/user/connections_service.py:95-96 | the number printed reads as itself, without leading zeros |
| LedgerEffects.StepShows | hub/src/lehen_hub/user/connections_service.py:127-715 | every call does one of four things to rows and events: nothing, insert one fresh row and its `granted` event, close a selection with one event each, or update one usable row |
| Conservation.EachRowIsToldOnce | hub/src/lehen_hub/user/connections_service.py:197-211 | in every run the log of a row whose id is its own is `granted`, followed by one revocation of the recorded kind exactly when the row is disconnected |
| Conservation.RevocationTellsIff | hub/src/lehen_hub/user/connections_service.py:252-268 | a revocation leaves the log telling a row's story exactly when the row, if its id is among those updated, is selected or keeps the story it had |
| Conservation.GrantedMinusRevokedIsActive | hub/src/lehen_hub/user/connections_service.py:744-773 | in every run granted minus revoked events equals active rows, for each user and instance whose rows have their ids to themselves |
| Conservation.DistinctIdsTellEverything | hub/src/lehen_hub/user/connections_service.py:744-773 | with distinct ids every row's story is told and every balance holds |
| Conservation.RevocationKeepsBalanceIff | hub/src/lehen_hub/user/connections_service.py:252-268 | a revocation keeps that balance exactly when every active row it reaches by id is one it selected |
| Conservation.CollidingRevokeReachesOtherUser | hub/src/lehen_hub/user/connections_service.py:174-199 | two grants with colliding ids and one revoke close the other user's row, untold, and break the balance |
| Conservation.BatchRevokeIsExact | hub/src/lehen_hub/user/connections_service.py:483-517 | for any table: an instance revoke closes every active row of the instance, logs one event for each and returns their number; it changes no other row, and the number is that of the rows changed, exactly when its updates spare all others; repeated it returns 0 and changes nothing |
| Conservation.DistinctIdsSpareAll | hub/src/lehen_hub/user/connections_service.py:492-498 | as they do with distinct ids |
| Conservation.SiamRevokeIsExact | hub/src/lehen_hub/user/connections_service.py:543-599 | the same for the SIAM cascade between any two mappings |
| Lifecycle.RowsAreSound | hub/src/lehen_hub/user/connections_service.py:252-258 | in every run, whatever ids collide: `disconnected_at` is set exactly on disconnected rows, and admin-revoked rows are disconnected without credentials |
| Lifecycle.ClosedStaysClosed | hub/src/lehen_hub/user/connections_service.py:492-498 | in every run a disconnected row stays disconnected and never regains credentials |
| Lifecycle.UpdateMovesIff | hub/src/lehen_hub/user/connections_service.py:698-715 | an update by ids moves a row legally exactly when it misses it, finds it ready for the move, or changes nothing |
| Lifecycle.RowsAreWellKept | hub/src/lehen_hub/user/connections_service.py:431-446 | besides, a stub row whose id is its own holds no credentials, a connected or stale one does |
| Lifecycle.FetchKeepsWellIff | hub/src/lehen_hub/user/connections_service.py:698-715 | a token fetch breaks that exactly on the stub rows that share the id it fetches for |
| Witnesses.CollidingFetchReachesOtherUser | hub/src/lehen_hub/user/connections_service.py:711-715 | a failed refresh turns another user's stub row stale when the two share their id |
| Lifecycle.RunMovesRows | hub/src/lehen_hub/user/connections_service.py:492-498 | in every run a row whose id is its own only moves stub to disconnected, connected to stale, connected or stale to disconnected, or stores new tokens while connected |
| Lifecycle.DisconnectedIsFinal | hub/src/lehen_hub/user/connections_service.py:174-179 | a disconnected row whose id is its own is never touched again along any run |
| Lifecycle.FetchCallsAtMostOnce | hub/src/lehen_hub/user/connections_service.py:605-696 | for any table, a fetch makes at most one request: a refresh with the stored refresh token of a connected row whose token has no more than the skew left |
| Lifecycle.FetchTouchesOneRow | hub/src/lehen_hub/user/connections_service.py:635-649 | a fetch for a row whose id is its own changes no other row |
| Lifecycle.FetchAnswers | hub/src/lehen_hub/user/connections_service.py:605-715 | while its token outlives the skew: the stored token, no request, nothing changed; otherwise a token exactly when a refresh was requested and answered, and then the new one, with what was returned stored, no more and no less; else a connected row turns stale |
| Lifecycle.AtMostOneFailedRefresh | hub/src/lehen_hub/user/connections_service.py:621-633 | in every run, whatever ids collide, a row turns stale at most once, and its id is unusable for token fetches from then on |
| Reconnect.ReconnectRefusedIffHeld | hub/src/lehen_hub/user/connections_service.py:342-422 | a callback is refused as already connected exactly when all else is in order and an active row, stale included, holds the account; it succeeds exactly when all is in order and the account is free; refused, it changes no row, event or state |
| Witnesses.StaleRowBlocksReconnect | hub/src/lehen_hub/user/connections_service.py:406-422 | a run from empty tables in which a failed refresh leaves a stale row and the next callback is refused for it |
| Reconnect.RevokeMakesRoom | hub/src/lehen_hub/user/connections_service.py:213-268 | after a full revoke any grant succeeds exactly when the gates pass, under the next number |
| Reconnect.GrantIsNotRepeatable | hub/src/lehen_hub/user/connections_service.py:156-172 | a granted connection refuses the same grant |
| Outcomes.GateReads | hub/src/lehen_hub/user/connections_service.py:137-154 | the refusals come in order and say: no such instance, disabled, listed by the stored mapping value under no role of the user |
| Outcomes.NextNumIsNext | hub/src/lehen_hub/user/connections_service.py:734-742 | the next number is the least above every number of the pair |
| Outcomes.GrantOutcome | hub/src/lehen_hub/user/connections_service.py:127-211 | a grant is refused by the gates, or exactly when an active row holds the subject; otherwise it inserts one row with the label, privacy and subject given, and logs it |
| Outcomes.InitiateOutcome | hub/src/lehen_hub/user/connections_service.py:274-328 | each refusal and its condition; otherwise the flow minted and the request hold the caller, the clock, the verifier, the redirect URI and the instance's tenant and client |
| Outcomes.CompleteOutcome | hub/src/lehen_hub/user/connections_service.py:330-466 | one exchange with the instance's tenant, client and secret and the flow's own values, exactly when the state opens for the caller and the gates pass; a connected row exactly when tokens and an account that no active row holds come back, storing those tokens with `expires_at` = now + lifetime, 3600 s if none is sent |
| Outcomes.FetchOutcome | hub/src/lehen_hub/user/connections_service.py:605-715 | for the first row with its id, whatever else shares it: when a token is handed out, when a request is made and with what, what is stored, and when the row turns stale |
| Outcomes.RefreshIsMadeIff | hub/src/lehen_hub/user/connections_service.py:658-696 | a refresh is requested exactly when the row is connected, its credentials open, the token is due, a refresh token is stored and the instance is an `outlook-graph` one with a tenant; a missing client secret does not matter |
| Outcomes.HeldTokenIsServed | hub/src/lehen_hub/auth/oauth.py:309-324 | a row holding an answer of time `since` serves its token, with no request and no change, while t + skew < since + lifetime; from then on a refresh is due |
| Outcomes.CallbackTokenIsServed | hub/src/lehen_hub/user/connections_service.py:398-466 | so it is for the row a callback inserted, in every later state that still holds it |
| Outcomes.RefreshedTokenIsServed | hub/src/lehen_hub/user/connections_service.py:677-709 | and for the tokens a refresh stored |
| Outcomes.RevokeOutcome | hub/src/lehen_hub/user/connections_service.py:213-268 | a revoke succeeds exactly when the user has an active row there, under the subject if one is named; it disconnects those rows at `now`, keeps their credentials and logs `revoked` once for each; any other row, other users' included, changes only if it shares an id with one of them |
| Outcomes.AdminCascadeOutcome | hub/src/lehen_hub/admin/integrations_service.py:244-273 | the instance's active rows are closed, wiped and logged exactly when `enabled` goes from true to false or the instance is deleted; no other instance or LLM call touches rows or events |
| Outcomes.ReplaceOutcome | hub/src/lehen_hub/user/connections_service.py:543-599 | a replace closes, wipes and logs exactly the active rows on instances that some role listed before and none lists after |
| Outcomes.StoredMappingLists | hub/src/lehen_hub/admin/siam_service.py:56-114 | the value stored lists an instance under a role exactly when the value sent does |
| OAuthRuns.EveryFlowWasInitiated | hub/src/lehen_hub/user/connections_service.py:292-328 | every flow a state can open to was minted by a successful initiate of that user and instance, gates passed, with an allowlisted redirect URI |
| OAuthRuns.ConnectedRowsComeFromFlows | hub/src/lehen_hub/user/connections_service.py:342-397 | every inserted connected row comes from a complete whose state an earlier initiate of the same user and instance minted at most 600 s before, and the token request carries that flow's redirect URI and code verifier |
| OAuthRuns.CompleteUsesItsFlow | hub/src/lehen_hub/user/connections_service.py:389-397 | a successful complete makes one exchange, with the code presented and the values of its own flow |
| OAuthRuns.StateStaysUsable | hub/src/lehen_hub/user/connections_service.py:342-350 | no call changes what a minted state opens to |
| OAuthRuns.StateIsBoundToCaller | hub/src/lehen_hub/user/connections_service.py:342-350 | a state of another user or instance, or one never minted, changes nothing |
| Me.ListedIffGrantable | hub/src/lehen_hub/user/me_service.py:50-79 | an instance is listed exactly when both gates would let the user grant it; the list is strictly ascending |
| Me.NeedsConnectIffNoActiveRow | hub/src/lehen_hub/user/me_service.py:120-128 | in every run an entry says `needs_connect` exactly when the user has no active row there |
| Me.EntryShows | hub/src/lehen_hub/user/me_service.py:62-92 | in every run an entry shows the instance's type and name, and the id and status of the user's latest active row there |
| Services.Arcade.UpdateById | hub/src/lehen_hub/user/connections_service.py:253-258 | an update by id rewrites every row carrying the id and no other, in place |
| Services.Arcade.MaxNumPlusOne | hub/src/lehen_hub/user/connections_service.py:734-742 | the next number is one above the largest of the pair, or 0 |
| Services.UserConnectionsService.IsSiamAuthorized | hub/src/lehen_hub/user/connections_service.py:717-725 | the loop answers whether some role of the user is mapped to the instance |
| Services.UserConnectionsService.CheckGates | hub/src/lehen_hub/user/connections_service.py:137-154 | exists, enabled, authorized, in this order |
| Services.UserConnectionsService.GrantConnection | hub/src/lehen_hub/user/connections_service.py:127-211 | the tables and the answer after a grant, errors included |
| Services.UserConnectionsService.RevokeConnection | hub/src/lehen_hub/user/connections_service.py:213-268 | the loop of updates and events equals one revocation of the selected rows |
| Services.UserConnectionsService.InitiateGrant | hub/src/lehen_hub/user/connections_service.py:274-328 | the minted flow and the request, or the first refusal |
| Services.UserConnectionsService.CompleteGrant | hub/src/lehen_hub/user/connections_service.py:330-466 | the tables, the token call and the answer after a callback, every error path included |
| Services.UserConnectionsService.RevokeAll | hub/src/lehen_hub/user/connections_service.py:470-517 | the instance cascade and its count |
| Services.UserConnectionsService.WalkActives | hub/src/lehen_hub/user/connections_service.py:548-599 | the walk with its two skip branches closes exactly the selected rows, logs each, and counts them |
| Services.UserConnectionsService.RevokeNoLongerMapped | hub/src/lehen_hub/user/connections_service.py:519-599 | the SIAM cascade and its count |
| Services.UserConnectionsService.GetValidAccessToken | hub/src/lehen_hub/user/connections_service.py:605-633 | the tables, the calls and the token after a fetch |
| Services.UserConnectionsService.RefreshOnce | hub/src/lehen_hub/user/connections_service.py:658-696 | the one refresh call, if it can be made at all, and its outcome |
| Services.AdminServices.CreateInstance | hub/src/lehen_hub/admin/integrations_service.py:78-154 | the tables and the answer after a create |
| Services.AdminServices.UpdateInstance | hub/src/lehen_hub/admin/integrations_service.py:156-254 | the tables after an update, with the cascade exactly when `enabled` goes from true to false |
| Services.AdminServices.DeleteInstance | hub/src/lehen_hub/admin/integrations_service.py:256-293 | the tables after a delete: cascade first, then the row, then the audit record |
| Services.AdminServices.ReplaceMapping | hub/src/lehen_hub/admin/siam_service.py:56-101 | the tables after a replace, with the cascade exactly on a real change |
| Services.AdminServices.UpdateLlm | hub/src/lehen_hub/admin/llm_service.py:74-140 | the row and the audit log after an LLM update |
| Services.MeService.Show | hub/src/lehen_hub/user/me_service.py:44-92 | the loops build the view, and the login event lists its instances |
| Siam.NormalizeLoop | hub/src/lehen_hub/admin/siam_service.py:104-114 | the loop computes the normal form; every list is strictly ascending |
| Siam.NormalizeKeepsGrants | hub/src/lehen_hub/admin/siam_service.py:104-114 | normalising neither loses nor adds a (role, instance) pair |
| Siam.NormalFormsCompareGrants | hub/src/lehen_hub/admin/siam_service.py:63-101 | two values normalise equally exactly when they have the same roles and instance sets |
| Siam.NormalizeIsIdempotent | hub/src/lehen_hub/admin/siam_service.py:104-114 | storing and reading back a normal form changes nothing |
| Strings.AscendingIsCanonical | hub/src/lehen_hub/admin/siam_service.py:104-114 | a strictly ascending list is determined by its members |
| Integrations.SplitConfigLoop | hub/src/lehen_hub/admin/integrations_service.py:304-337 | one pass over the fields yields the public part and the sealed part, or the first complaint |
| InstanceLife.InstancesHoldLastGiven | hub/src/lehen_hub/admin/integrations_service.py:178-229 | after any run of admin calls an instance holds, per field, the last non-null value accepted since its creation, split by its type |
| InstanceLife.ViewNamesSecretsGiven | hub/src/lehen_hub/admin/integrations_service.py:339-349 | public and sealed names are disjoint, and the view names exactly the secrets ever given |
| InstanceLife.IdentityIsFixed | hub/src/lehen_hub/admin/integrations_service.py:156-229 | until deleted an instance keeps its id, type and creator |
| AdminOutcomes.SplitOutcome | hub/src/lehen_hub/admin/integrations_service.py:304-337 | a config is accepted exactly when it names only declared fields and fills each required one; the complaint names the undeclared ones, or else the first unfilled one; the parts hold the public and the secret fields sent |
| AdminOutcomes.CreateOutcome | hub/src/lehen_hub/admin/integrations_service.py:78-154 | which creates are accepted, the order of the complaints, and every field of the document stored |
| AdminOutcomes.UpdateOutcome | hub/src/lehen_hub/admin/integrations_service.py:156-229 | which updates are accepted, the order of the complaints, and for every field whether it is overridden or kept |
| AdminOutcomes.DeleteOutcome | hub/src/lehen_hub/admin/integrations_service.py:256-293 | a delete removes the instance whatever its type; it logs, and succeeds, exactly when the type is still known |
| AdminOutcomes.CreateIsLogged | hub/src/lehen_hub/admin/integrations_service.py:131-153 | the record shows the request field by field, secrets masked, and nothing else |
| AdminOutcomes.UpdateIsLogged | hub/src/lehen_hub/admin/integrations_service.py:206-243 | the record shows the document before and after, of a secret not sent only that it exists, and nothing else; for documents stored as every run leaves them |
| AdminOutcomes.DeleteIsLogged | hub/src/lehen_hub/admin/integrations_service.py:274-293 | the record shows the document removed, under the same condition |
| AdminOutcomes.RunsAreWellStored | hub/src/lehen_hub/admin/integrations_service.py:156-229 | which every instance of every run meets: its own id, a known type, and its config divided as the type declares |
| AdminOutcomes.ReplaceIsLogged | hub/src/lehen_hub/admin/siam_service.py:63-100 | the record shows the mappings before and after |
| LlmConfig.Draft.ApplySide | hub/src/lehen_hub/admin/llm_service.py:150-260 | the three documents filled in place after one side, or untouched on any complaint |
| LlmLens.UpdateLeavesOtherSide | hub/src/lehen_hub/admin/llm_service.py:213-260 | updating one side leaves every stored key outside it, and the other side's view, as they were |
| LlmLens.UpdatedSideReadsBack | hub/src/lehen_hub/admin/llm_service.py:274-296 | the updated side renders the provider sent, each public field cleaned, and each secret's flag true exactly when a value was sent or none was sent and one was stored |
| LlmLens.WhenRequiredSecretIsSet | hub/src/lehen_hub/admin/llm_service.py:193-211 | a required secret is set after an accepted update exactly when it was not sent empty |
| LlmLens.EmptyRequiredSecretIsAccepted | hub/src/lehen_hub/admin/llm_service.py:206-211 | the shipped `openai` provider accepts an empty key over a stored one, and clears it |
| LlmLens.SideUpdatesCommute | hub/src/lehen_hub/admin/llm_service.py:93-126 | the two side updates commute |
| LlmLens.AcceptanceIsIndependent | hub/src/lehen_hub/admin/llm_service.py:172-211 | whether a side's payload is accepted does not depend on the other side's update |
| LlmOutcomes.ValidateOutcome | hub/src/lehen_hub/admin/llm_service.py:172-211 | which payloads a side accepts, and for any other the complaint: the provider missing or unknown, the undeclared keys, or the first required field neither sent nor, for a secret, stored |
| LlmOutcomes.UpdateRowOutcome | hub/src/lehen_hub/admin/llm_service.py:87-126 | an update is accepted exactly when a side is sent and each side sent is acceptable over the stored row |
| LlmOutcomes.UpdateLlmOutcome | hub/src/lehen_hub/admin/llm_service.py:74-140 | refused, it changes nothing; accepted, it changes the row and appends one record |
| LlmOutcomes.LlmIsLogged | hub/src/lehen_hub/admin/llm_service.py:96-139 | the record shows each stored side before, and after it each side sent as sent and any other as before, masked under the names of secrets sent |
| LlmOutcomes.ViewOutcome | hub/src/lehen_hub/admin/llm_service.py:274-296 | a side is shown by its stored provider: known, by that provider's fields; unknown or none, by model and base URL |
| LlmLens.ShippedRegistryIsWellFormed | hub/src/lehen_hub/llm/providers.py:52-158 | the shipped provider catalogue meets the naming condition the lens laws need |
| AuditLog.MaskSecrets | hub/src/lehen_hub/admin/audit_service.py:69-92 | the loop masks exactly the secret names |
| AuditRuns.LogHidesSecrets | hub/src/lehen_hub/admin/audit_service.py:42-92 | two runs of the same admin calls that differ only in non-empty secret values leave the same log but for fingerprints |
| AuditRuns.LogShowsOnlyFingerprints | hub/src/lehen_hub/admin/audit_service.py:86-92 | and the same log altogether when the fingerprints agree |
| SlidingWindow.SlidingWindowCounter.HitAndCheck | hub/src/lehen_hub/admin/local_admin_service.py:103-110 | the pruning loop, the new bucket and the verdict |
| SlidingWindow.BucketIsWindow | hub/src/lehen_hub/admin/local_admin_service.py:99-110 | with non-decreasing readings the pruned bucket is exactly the full history's closed last minute |
| SlidingWindow.VerdictCountsWindow | hub/src/lehen_hub/admin/local_admin_service.py:103-110 | the verdict compares the full history's last-minute count with the limit |
| SlidingWindow.AtMostLimitPerMinute | hub/src/lehen_hub/admin/local_admin_service.py:90-110 | no closed minute holds more admitted hits of a key than the limit |
| LoginLimits.BucketsAreHits | hub/src/lehen_hub/admin/local_admin_service.py:160-177 | the limiter's state in a running process is that of the process's own hits |
| LoginLimits.LoginsPerMinute | hub/src/lehen_hub/admin/local_admin_service.py:160-177 | within a process no closed minute holds more logins past the limiter, per address or per username, than the limit |
| LocalAdmin.LocalAdminService.Login | hub/src/lehen_hub/admin/local_admin_service.py:146-253 | the tables, the buckets and the token after a login, in the source's order of checks |
| LocalAdmin.LocalAdminService.RecordFailedAttempt | hub/src/lehen_hub/admin/local_admin_service.py:374-392 | the counter and the lock after a wrong password |
| LocalAdmin.LocalAdminService.DisableOnSiamAdminLogin | hub/src/lehen_hub/admin/local_admin_service.py:259-292 | the transition happens exactly on an enabled bootstrap row |
| LocalAdmin.LocalAdminService.BootstrapSetPassword | hub/src/lehen_hub/admin/local_admin_service.py:294-341 | the rotated row and its record |
| AdminSurface.LockReflectsHistory | hub/src/lehen_hub/admin/local_admin_service.py:374-401 | in every run the stored counter and lock are what the wrong passwords since the last success or rotation say |
| AdminSurface.MissesAreSpaced | hub/src/lehen_hub/admin/local_admin_service.py:207-234 | from the threshold-th on, checked wrong passwords are at least a lockout apart |
| AdminSurface.MissesPerSpan | hub/src/lehen_hub/admin/local_admin_service.py:207-234 | so any stretch of them within T has at most 1 + floor(T / lockout) |
| AdminSurface.MissesAreBounded | hub/src/lehen_hub/admin/local_admin_service.py:374-392 | so at most threshold + floor(T / lockout) are ever checked, T counted from the threshold-th |
| AdminSurface.LockRefusesEveryPassword | hub/src/lehen_hub/admin/local_admin_service.py:207-220 | inside a lock window the right password is refused too and the row does not change |
| AdminSurface.OneEventPerLogin | hub/src/lehen_hub/admin/local_admin_service.py:146-253 | every login appends one event naming its outcome; success needs an enabled, unlocked row and its password; other rows stay |
| AdminSurface.NoLoginUntilRotation | hub/src/lehen_hub/admin/local_admin_service.py:199-206 | from an auto-disable to the next rotation every bootstrap login ends disabled or rate-limited, restarts included |
| LoginOutcomes.LoginOutcome | hub/src/lehen_hub/admin/local_admin_service.py:146-253 | in every run a login past both limiters ends as the calls before it say: the last rotation, the SIAM admin requests and the wrong passwords since the last success or rotation |
| LoginOutcomes.SuccessIff | hub/src/lehen_hub/admin/local_admin_service.py:199-253 | it succeeds exactly when the account is enabled, the password is that of its last rotation, and fewer wrong passwords than the threshold are recorded or the lockout has passed since the last; it is a wrong password exactly when only the password fails |
| LoginOutcomes.LockEnds | hub/src/lehen_hub/admin/local_admin_service.py:207-253 | once the lockout has passed the right password works again |
| LoginOutcomes.PasswordIsLastRotated | hub/src/lehen_hub/admin/local_admin_service.py:294-341 | an account exists exactly when it was rotated, and its hash is of the last password given |
| LoginOutcomes.EnabledIff | hub/src/lehen_hub/admin/local_admin_service.py:259-325 | in every run an account is enabled exactly when it was rotated and, for the bootstrap account, no process's first SIAM admin request came since |
| LoginOutcomes.RateLimitedIff | hub/src/lehen_hub/admin/local_admin_service.py:99-177 | within one process and on a monotonic clock, a login passes the limiters exactly when its address and its username have fewer than the limit of hits in the last 60 s |
| AdminSurface.AutoDisablesSpendRotations | hub/src/lehen_hub/admin/local_admin_service.py:259-325 | auto-disable events never exceed the rotations of the bootstrap row |
| AdminSurface.AppState.RequireAdminCaller | hub/src/lehen_hub/auth/dependencies.py:230-284 | who is let in, and what the hook does on the way |
| AdminSurface.CacheLeavesPendingOnce | hub/src/lehen_hub/auth/dependencies.py:262-284 | within a process the cache leaves `pending` once and keeps its value |
| AdminSurface.WhenSiamLoginDisables | hub/src/lehen_hub/auth/dependencies.py:262-284 | a SIAM admin request leaves the bootstrap account disabled exactly when the process had not looked before or it was not enabled anyway |
| AdminSurface.RotationAfterLookSurvives | hub/src/lehen_hub/auth/dependencies.py:269-273 | an account rotated after the first look stays enabled through the next SIAM admin request |
| Jwks.JWKSCache.BeforeLock | hub/src/lehen_hub/auth/jwks.py:46-53 | the answer up to the lock |
| Jwks.JWKSCache.UnderLock | hub/src/lehen_hub/auth/jwks.py:53-58 | the second look: freshness only |
| Jwks.JWKSCache.AfterFetch | hub/src/lehen_hub/auth/jwks.py:58-77 | the fields after a success or a failure |
| Jwks.JWKSCache.Invalidate | hub/src/lehen_hub/auth/jwks.py:87-91 | everything is forgotten |
| Jwks.RunKeeps | hub/src/lehen_hub/auth/jwks.py:46-91 | the invariant of every interleaving: lock, cache, negative window and log agree |
| Jwks.AtMostOneFetchInFlight | hub/src/lehen_hub/auth/jwks.py:53-77 | in every interleaving at most one caller is fetching |
| Jwks.CallOutcome | hub/src/lehen_hub/auth/jwks.py:46-53 | in every interleaving a call returns at once exactly when the latest success since the last invalidation is young, with its payload; raises at once exactly when none is and the window of the latest failure is open; and otherwise waits |
| Jwks.AcquireOutcome | hub/src/lehen_hub/auth/jwks.py:53-58 | a waiting caller that gets the lock returns a success that is young by then, and otherwise starts a fetch |
| Jwks.AnswerOutcome | hub/src/lehen_hub/auth/jwks.py:58-77 | an answer frees the lock and ends the call: a key set is noted at the time its fetch started and returned, anything else is noted as a failure and raised |
| Jwks.FetchWaitsOutTimeToLive | hub/src/lehen_hub/auth/jwks.py:46-58 | unless invalidated in between, a fetch starts at least a time-to-live after each successful one started |
| Jwks.ReturnsAreLatest | hub/src/lehen_hub/auth/jwks.py:46-77 | every value returned is the latest successful payload, younger than the time-to-live or fetched by that very call |
| Jwks.FetchesPerSpan | hub/src/lehen_hub/auth/jwks.py:46-77 | one caller at a time, none cancelled: any stretch of fetches within T has at most 1 + floor(T / min(ttl, negative ttl)) |
| Jwks.RespectsWindowIff | hub/src/lehen_hub/auth/jwks.py:50-58 | a fetch starts outside every negative window exactly when the check made before the lock would still pass under it |
| Jwks.UndisturbedCallerRespectsWindow | hub/src/lehen_hub/auth/jwks.py:50-58 | so a caller during whose wait no failure was recorded starts outside every negative window |
| Jwks.ContendingCallersAreNotSpaced | hub/src/lehen_hub/auth/jwks.py:53-58 | two waiting callers can fail back to back |
| Base64Url.RoundTrip | hub/src/lehen_hub/crypto/secrets.py:45-55 | what is encoded decodes to the same bytes |
| Base64Url.NoPadRoundTrip | hub/src/lehen_hub/auth/oauth.py:68-81 | the unpadded form has only unreserved characters, a length fixed by the input (43 for 32 bytes), and loses nothing |
| Base64Url.GroupsAreSpelled | hub/src/lehen_hub/crypto/secrets.py:45-55 | the text is the bytes three at a time, each group spelled by its four base-64 digits in the alphabet of RFC 4648 |
| Base64Url.ReadsLeniently | hub/src/lehen_hub/crypto/secrets.py:58-66 | foreign characters, and the plain alphabet's two symbols, make no difference to the reader |
| Envelope.DecryptUndoesEncrypt | hub/src/lehen_hub/crypto/secrets.py:45-77 | opening undoes sealing through version, nonce, ciphertext and encoding |
| Envelope.OnlyIssuedOpens | hub/src/lehen_hub/crypto/secrets.py:58-77 | with an unforgeable cipher, whatever opens carries the bytes of something the hub sealed, and opens to that |
| Envelope.ForeignEnvelopesAreRefused | hub/src/lehen_hub/crypto/secrets.py:58-77 | any blob under 29 bytes, and any other version byte, is refused |
| OAuthState.StateRoundTrip | hub/src/lehen_hub/auth/oauth.py:84-135 | a minted state decodes to its flow exactly when -60 <= now - issued_at <= max_age, and is an error of the right kind otherwise |
| OAuthState.AcceptedStateWasMinted | hub/src/lehen_hub/auth/oauth.py:107-135 | with an unforgeable cipher every accepted state carries a state the hub minted for that flow, or a config secret that spells it; never stored credentials, although they share the key |
| OAuthState.AcceptedIffMinted | hub/src/lehen_hub/auth/oauth.py:84-135 | when no config secret spells a flow, exactly the minted states inside the age window are accepted |
| OAuthState.CredentialsAreNoFlow | hub/src/lehen_hub/auth/oauth.py:113-127 | a stored-credentials document never reads as a flow |
| OAuthState.TokensReadBack | hub/src/lehen_hub/auth/oauth.py:201-222 | stored tokens read back field by field |
| OAuthState.MissingPartsDefault | hub/src/lehen_hub/auth/oauth.py:210-222 | which parts of a stored document may be missing, and what stands in for them |
| OAuthState.FlowKeysAreNeeded | hub/src/lehen_hub/auth/oauth.py:117-127 | none of the six keys of a flow may be missing |

## Left out

- Interleaving inside ledger and login calls: each call is one atomic step with one clock reading, and database writes succeed. Only the JWKS cache is interleaved.
- Sealing inside the ledger: an OAuth `state` is a position in the list of flows minted so far, and stored credentials and client secrets hold what they open to (or are unreadable). The envelope, the state format and the one key that serves states, credentials and config secrets are treated on their own, in `Envelope` and `OAuthState`. A client secret that no longer opens is not modelled.
- AES-GCM, argon2, HMAC, SHA-256 and JSON: parameters or ideal operations, of which only an inverse pair, an ideal password check or an uninterpreted fingerprint is used. Timing (dummy hash checks) is not modelled.
- HTTP, routing, the bearer-token checks and SQL: the callers' identities are inputs, tables are maps and sequences.
- Record identifiers, request ids, retention dates, user agents, health timestamps and the `revoked_at` copy of `disconnected_at`.
- The authorization URL text: the request keeps its parts, and the S256 challenge is kept as the verifier it is made from.
- Config values other than texts and null, JSON numbers that are not whole, and ArcadeDB's `@` fields. A sealed payload that is not UTF-8 counts as malformed JSON.
- The LLM row's `id`, `updated_by` and `updated_at`, and the error for a missing singleton row.
- The user part of the `/me` payload, and the order of `secret_fields_set`, which is a set here.
- Listing calls, `warm`, `generate_password`, health probes, bootstrap and provisioning scripts, the Edge and both web front ends: they would only add easy members.
- Conservation.EachRowIsToldOnce: for rows whose id is their own; for others it can fail, exactly as `RevocationTellsIff` says.
- Conservation.GrantedMinusRevokedIsActive: for users and instances whose rows have their ids to themselves; for others it can fail, exactly as `RevocationKeepsBalanceIff` says.
- Lifecycle.RunMovesRows: for rows whose id is their own; for others see `UpdateMovesIff`.
- Lifecycle.DisconnectedIsFinal: the same; without the condition `ClosedStaysClosed` still holds.
- Lifecycle.RowsAreWellKept: the same; without the condition `RowsAreSound` still holds, and `FetchKeepsWellIff` says when the rest fails.
- Lifecycle.FetchTouchesOneRow: the same, since the update goes to every row with the id.
- Lifecycle.FetchAnswers: the same.
- LedgerRuns.ReplaceOnOwnRow: the same; `ReplaceClosesOrphans` has the exact outcome for any row.
- LedgerRuns.OwnersKeepAccessIff: the same.
- LedgerRuns.SingleMeansSingle: for runs through the routes, whose single-shot grant names no subject; the service method itself accepts any subject.
- LoginOutcomes.RateLimitedIff: for one process and a clock that does not run backwards, as the source's monotonic one does not.
- LoginLimits.LoginsPerMinute: for one process, from its start; the limiter's memory does not survive a restart.
