# Jinbe control plane: a verified model

Jinbe keeps its access-control state (services, groups, roles, route maps, gateway rules, org mappings,
recertification campaigns) in a handful of Redis keys, reads memberships from the identity directory, and
changes both with multi-step code that is not transactional. This project models that code and proves what
it keeps. Redis is a record of maps, JSON encoding is the identity, the directory is a map from email to
groups, and time is an integer.

Code that updates state in place is a class or a method with loops, proved equal to a function on values;
the properties are lemmas about those functions, over every input, every run or every interleaving.

| file | what it models |
|---|---|
| `RedisLock.dfy`, `LockProgress.dfy`, `RuleConcurrency.dfy` | the Redis mutex, as one caller's loop and as a protocol of any number of clients; the rule array under it |
| `AccessRules.dfy` | gateway rules, their locked mutations, the sign-in posture of a service |
| `RbacStore.dfy`, `RbacBundle.dfy`, `BundleEffects.dfy` | the stored configuration; export, import, compensation, rollback, import history; what an import leaves under every key |
| `Recert.dfy`, `RecertService.dfy`, `RecertEffects.dfy` | recertification campaigns as a state machine, the service that runs them, and what each event leaves behind |
| `Power.dfy`, `Resolver.dfy`, `ReviewMeaning.dfy` | four derivations of who holds power, and where they agree; what a review entry says and who is listed before whom |
| `ImpactPreview.dfy`, `PreviewEffects.dfy` | the blast radius of a proposed change, the request sample, the flipped decisions; what exactly is compared |
| `Walks.dfy`, `Caches.dfy`, `DirectoryCounts.dfy`, `CacheProgress.dfy` | the walks over the sources with the identity cache below them; the two stale-while-revalidate caches with a generation counter |
| `Bootstrap.dfy`, `BootstrapService.dfy`, `RouteMapMerge.dfy`, `BootstrapEffects.dfy` | seeders, upserts, migrations, the marker and its history, the route-map merge; what a run leaves in the store |
| `Identities.dfy`, `GroupWriters.dfy` | identity writers one after another, and the writers of one user's groups at the same time |
| `CanonicalJson.dfy`, `AuditCsv.dfy`, `AuditSummary.dfy` | canonical JSON, CSV export, windowed summary |
| `GroupList.dfy`, `Prelude.dfy`, `Counters.dfy`, `Text.dfy`, `Ranking.dfy` | taking a group from a user's list, lists, counting maps, strings, sorting by any order |

## Where the code does not do what it says

Each is a lemma with a concrete or generic failing input, next to the exact condition under which the code
does meet the promise.

- A write that outlives its lock's TTL loses another caller's rule (`RuleConcurrency.LateWriteLosesRule`); for every TTL that Redis accepts, nothing is ever lost if and only if sections write within a bound below it (`RuleConcurrency.NothingLostExactly`).
- `createService` swallows "already exists", so a service whose rule id is taken (for instance by another service's health rule) is left with the other rule's posture (`AccessRules.HealthRuleTakesAnId`, `AccessRules.CreatedMainRule`).
- A section list that repeats entries counts as a full restore and prunes (`RbacBundle.DuplicatedSectionsPrune`, `RbacBundle.FullMeansAllWanted`).
- A failed import is undone without a trace, whichever write is answered with an error (with or without having taken effect), if and only if four things hold (`RbacBundle.CompensationRestoresExactly`; the same condition decides whether a rollback can be rolled back, `RbacBundle.RollbackUndone`). Every registered service holds the default role names, and every org mapping is in stored form: otherwise even an import whose first read fails changes the configuration (`RbacBundle.UnreadyStateChanges`). The bundle names no new route map, no roles of a new name that is no service (`global` above all) and no new org: these stay (`RbacBundle.SomethingSurvives`; for this part alone, `RbacBundle.CompensationExactly`). And it neither registers a name that is no service but has a route map or roles, which are then pruned (`RbacBundle.RegisteredStrayIsPruned`, `RbacBundle.NothingAddedYetPruned`), nor brings other ones for it (`RbacBundle.OverwrittenStrayStays`, `RbacBundle.NothingAddedYetOverwritten`).
- A close that the directory interrupts, or whose subject has left the directory, leaves the campaign closing for ever, without a report (`Recert.DeletedSubjectStopsClose`, `Recert.CutShortIsForever`).
- The permission resolver looks application role names up in the global role map too, so the access review can miss an unlimited user (`Resolver.ReviewMissesCrossedRoles`, `Resolver.CrossedRoleExample`). The other way round, the review counts a bare `super_admin` to whom the resolver grants nothing unless some map stars the name (`Resolver.BareSuperAdmin`, `Resolver.PowerReachesResolver`).
- The impact preview misses users if and only if the global role map is among the proposed ones (`ImpactPreview.UserSideExactly`), and otherwise misses services if and only if somebody's global roles change, or an address listed for the first time loses what the base group gave it (`ImpactPreview.ServiceSideExactly`, `ImpactPreview.GlobalEditReachesUnlistedApps`).
- Both caches sit on a third one, of identities, that a scan refills with whatever it has read, also after an invalidation. After whatever history, an invalidation of the review, or of the counts, keeps them fresh on every later run if and only if it finds no old identity page, neither in that cache nor in a scan under way (`Caches.InvalidationExactly`, `DirectoryCounts.StatsInvalidationExactly`); whatever it finds, the live sources are fresh (`Caches.ReviewLiveNeverStale`, `DirectoryCounts.CountsLiveNeverStale`). Reachable failures: a scan overtaken by a change, even when the identity cache is dropped (`Caches.OldScanDefeatsInvalidation`, `DirectoryCounts.OldScanDefeatsStatsInvalidation`), and a cache dropped before a deletion and refilled before it (`Caches.OldBindingsDefeatInvalidation`), as happens in `src/controllers/admin.controller.ts:420-422`.
- A reader without a cached review that comes after an invalidation can be handed a walk begun before it (`Caches.ColdReadJoinsStaleWalk`, `Caches.ColdReadFreshness`).
- `invalidateBundle` deletes the counts key without a new generation, so it needs, besides, that no walk of this generation still at work has read anything old (`DirectoryCounts.BundleInvalidateExactly`); otherwise that walk stores old counts after the deletion (`DirectoryCounts.BundleInvalidateOvertaken`).
- Canonical JSON drops members named `__proto__` (`CanonicalJson.ProtoIsLost`, `CanonicalJson.CanonFaithfulExactly`).
- Route-map keys `method:path` are ambiguous when a method holds a colon. With colon-free methods the merge does what it promises for every method and path (`RouteMapMerge.PathPromise`); with colon-free built-in methods it is complete for every stored map if and only if no built-in path holds a colon (`RouteMapMerge.CompleteExactly`), and parameters such as `/:id` do.
- The CSV export leaves a carriage return unquoted, so a reader that keeps to the grammar of RFC 4180 reads the export if and only if no cell holds one without a comma, quote or line feed (`AuditCsv.ExportReadsBack`).
- A full user update that omits admin metadata keeps the groups and drops every other admin key of a user that has groups (`Identities.OmittedMetadataExactly`).
- `src/services/user-groups.service.ts:117-118` says that every writer of a user's groups takes the user's lock. Recertification revokes do not, and neither do the generic identity writes, which put back the groups they have read. No update is ever lost if and only if the writers at work are all holders of the lock, or all generic writes (`GroupWriters.SafeExactly`). Two overlapping revokes for one user lose the first, although both campaigns record it as applied (`GroupWriters.RevokesOverlap`); a generic write that overlaps any change of the groups reverts it (`GroupWriters.RewriteReverts`).
- Deletion takes no lock. One that has found a draft empty and overlaps its activation leaves an active campaign without its items, or index references to nothing, unless each of its deletions comes first or there are no items (`Recert.DeletionOverlap`).
- A revoke whose answer from the directory is lost leaves the item pending, and its reviewer may approve a membership that is gone (`Recert.UnansweredThenApproved`).
- Cleaning up after deleting a group stops at the first user that has left the directory or whose lock or call fails, and the caller carries on; users not reached keep the name, as do users the earlier directory reading missed and users with nothing but the fallback group (`Identities.WhoStillHoldsIt`, `Identities.VanishedUserSparesTheNext`).

## Model

| member | source | states |
|---|---|---|
| RedisLock.WithRedisLock | src/services/redis-lock.ts:33-74 | A refused call has waited its full time and last saw another's live lease; a call that ran leaves no lease of its own, leaves others' alone, and held the key throughout if it ended within its TTL |
| RedisLock.LockKey.SetNxPx | src/services/redis-lock.ts:48-53 | Acquire succeeds exactly when no live lease is stored, and stores the caller's token with its expiry |
| RedisLock.LockKey.CompareAndDelete | src/services/redis-lock.ts:64-73 | Release deletes the key exactly when it still holds the caller's token |
| RedisLock.MutualExclusion | src/services/redis-lock.ts:33-74 | In every interleaving of any number of clients, at most one client inside a section has an unexpired TTL |
| RedisLock.ReleaseSparesOthers | src/services/redis-lock.ts:64-73 | A release never removes another client's lease, even after a TTL overrun |
| RedisLock.NoLostUpdate | src/services/redis-lock.ts:25-32 | When every write beats its TTL, the stored value is the finished operations applied one at a time in write order, each with the outcome its caller saw |
| RedisLock.StepKeepsLease | src/services/redis-lock.ts:33-74 | Every step keeps tokens unique and keeps a client's lease in place while its TTL runs |
| RedisLock.StepKeepsNext | src/services/redis-lock.ts:33-74 | Every timely step keeps pending writes current with the stored value |
| LockProgress.WholeCallTakesEffect | src/services/redis-lock.ts:33-74 | An undisturbed call on a free key leaves what the operation makes of the stored value, records the outcome, and frees the key |
| LockProgress.WaitingForTheKey | src/services/redis-lock.ts:44-62 | A try at a held key changes nothing and is repeated until the caller's own deadline; after the holder's release the next try gets in |
| RuleConcurrency.RulesNeverLost | src/services/redis-rbac.repository.ts:249-285 | Concurrent add, update, delete and config edits of gateway rules: none is lost and ids stay distinct |
| RuleConcurrency.NothingLostExactly | src/services/redis-lock.ts:33-74 | For every TTL and bound d: no run whose sections write within d of their lease loses an operation, if and only if d is below the TTL or Redis refuses the TTL |
| RuleConcurrency.LateWriteLosesRule | src/services/redis-rbac.repository.ts:255-264 | For every TTL Redis accepts, a run in which a write a whole TTL late erases a rule both callers believe stored |
| AccessRules.RuleRepository.AddAccessRule | src/services/redis-rbac.repository.ts:255-264 | Adds at the end unless the id is taken |
| AccessRules.RuleRepository.UpdateAccessRule | src/services/redis-rbac.repository.ts:266-275 | Replaces the first rule with the id in place, or reports that there is none |
| AccessRules.RuleRepository.DeleteAccessRule | src/services/redis-rbac.repository.ts:277-285 | Removes the id, or reports that nothing was removed |
| AccessRules.RuleRepository.UpdateServiceConfig | src/services/rbac.service.ts:1066-1128 | Rewrites a registered service's rule with the requested posture, or leaves the array alone and says why: unknown service, no rule, or which handler is disabled |
| AccessRules.RuleRepository.CreateServiceRules | src/services/rbac.service.ts:977-981 | Adds the main and the health rule, leaving alone an id that is taken |
| AccessRules.DeletedIsGone | src/services/redis-rbac.repository.ts:277-285 | With distinct ids a delete removes exactly one rule or none |
| AccessRules.ApplyKeepsDistinctIds | src/services/redis-rbac.repository.ts:255-285 | Every rule mutation keeps ids pairwise distinct |
| AccessRules.BuiltChainSignsIn | src/services/rbac.service.ts:147-178 | The built chain has enabled authenticators only, in the order cookie, bearer, introspection, one for each requested method, the bearer header rule when both token methods are on |
| AccessRules.MainRuleHasPosture | src/services/rbac.service.ts:945-959 | The rule a service is created with is wholly public for no sign-in method and wholly protected otherwise |
| AccessRules.ConfiguredKeepsPosture | src/services/rbac.service.ts:1087-1124 | A config edit turns one posture into exactly the requested one |
| AccessRules.PostureAlways | src/services/rbac.service.ts:1066-1131 | After creation and any sequence of config edits the main rule is wholly public or wholly protected, as last asked for, and ids stay distinct |
| AccessRules.CreatedMainRule | src/services/rbac.service.ts:977-981 | Creation puts the main rule in place if and only if no other rule holds its id |
| AccessRules.HealthRuleTakesAnId | src/services/rbac.service.ts:963-981 | A service created with sign-in required ends up public because a health rule holds its id |
| AccessRules.DeriveServiceForRule | src/services/rbac.service.ts:1234-1242 | The owner is the unique longest registered service owning the id, in any registry order, else the text before the first dash |
| AccessRules.EditWrites | src/services/rbac.service.ts:1076-1124 | Every option that is given takes effect, every one left out keeps what was there; id, error handlers and host preservation always stay |
| AccessRules.EditFailsExactly | src/services/rbac.service.ts:147-178 | An edit fails if and only if it asks for a sign-in method whose handler is disabled |
| AccessRules.AddAppends | src/services/redis-rbac.repository.ts:255-264 | An added rule goes to the end unless some rule has its id |
| AccessRules.WritesInPlace | src/services/redis-rbac.repository.ts:266-275 | A replacement or an edit stands where the first rule with the id stood, all others stay in place |
| AccessRules.DeleteClosesGap | src/services/redis-rbac.repository.ts:277-285 | A deletion leaves the others in order |
| AccessRules.BeforeDashMeans | src/services/rbac.service.ts:1241-1241 | The fallback owner is the text up to the first dash |
| RbacStore.RbacRepository.SetOrgServiceMapping | src/services/redis-rbac.repository.ts:432-439 | Stores the cleaned list, or removes the mapping when nothing is left |
| RbacBundle.FullApplyFromAnyState | src/services/rbac-bundle.service.ts:232-304 | From any state, a full apply leaves services, groups and rules 1:1, roles as defaults overlaid by the bundle with global passed through, and named route maps overwritten; what the default roles may do is `BundleEffects.RolesAfterImport` |
| RbacBundle.ApplyIdempotent | src/services/rbac-bundle.service.ts:232-304 | Applying a bundle twice, whole or selectively, is applying it once |
| RbacBundle.ApplyForgets | src/services/rbac-bundle.service.ts:232-304 | After the same full apply two arbitrary states agree wherever the bundle speaks |
| RbacBundle.OrgMappingStored | src/services/rbac-bundle.service.ts:293-301 | An org mapping is stored as given if and only if it is non-empty, duplicate-free and names no empty service |
| RbacBundle.FullMeansAllWanted | src/services/rbac-bundle.service.ts:146-147 | For duplicate-free section lists the length test means that every section is wanted |
| RbacBundle.DuplicatedSectionsPrune | src/services/rbac-bundle.service.ts:234-235 | A list with duplicates prunes groups though it does not ask for everything |
| RbacBundle.SelectiveNeverPrunes | src/services/rbac-bundle.service.ts:142-147 | A selective import prunes no service, group, roles key or route map and leaves unselected sections alone |
| RbacBundle.SnapshotRestores | src/services/rbac-bundle.service.ts:170-180 | A snapshot applied to any state restores services, groups and rules; a service's roles if and only if they held the default names; an org mapping if and only if it was in cleaned form |
| RbacBundle.CompensationLeavesOnly | src/services/rbac-bundle.service.ts:170-180 | Whichever write is answered with an error, with or without effect, the compensation leaves nothing new but route maps, roles of names that are no service, and orgs that the bundle names |
| RbacBundle.AddedKeysSurvive | src/services/rbac-bundle.service.ts:283-301 | After any run that fails at the rules or the orgs, those route maps and roles are still there |
| RbacBundle.AddedOrgSurvives | src/services/rbac-bundle.service.ts:293-301 | A run that writes the orgs and loses the last reply leaves every new one, in whatever order they come |
| RbacBundle.SomethingSurvives | src/services/rbac-bundle.service.ts:170-180 | For each such key a failing run, of the whole bundle or of some sections and in any order of entries, whose compensation leaves it |
| RbacBundle.CompensationExactly | src/services/rbac-bundle.service.ts:170-180 | An import, whole or of some sections, and its compensation add no key but roles of registered services, whichever write is answered with an error, if and only if the bundle names nothing of that kind |
| RbacBundle.CompensationRestoresExactly | src/services/rbac-bundle.service.ts:165-180 | The compensation brings back the very state the import found, whichever write is answered with an error, if and only if services hold the default roles, org mappings are in stored form, nothing new stays, and route maps and roles of names that are no service are neither registered nor overwritten |
| RbacBundle.ComesBack | src/services/rbac-bundle.service.ts:165-180 | Under that condition every failed state is undone completely |
| RbacBundle.UnreadyStateChanges | src/services/rbac-bundle.service.ts:237-237 | Without default roles or stored form, an import whose first read fails, so that nothing was written, changes the state |
| RbacBundle.RegisteredStrayIsPruned | src/services/rbac-bundle.service.ts:241-254 | A route map or roles of a name that is no service are gone after a failed import that registered it |
| RbacBundle.OverwrittenStrayStays | src/services/rbac-bundle.service.ts:283-287 | A failed import's route map for such a name stays in place of the old one |
| RbacBundle.NothingAddedYetPruned | src/services/rbac-bundle.service.ts:241-254 | An input on which no failing run adds a key and yet one loses a route map |
| RbacBundle.NothingAddedYetOverwritten | src/services/rbac-bundle.service.ts:283-287 | An input on which no failing run adds a key and yet one replaces a route map |
| RbacBundle.ValidateOathkeeperRules | src/services/rbac-bundle.service.ts:108-138 | No failures exactly when every rule fits the schema and names enabled handlers only; every offending rule is reported, by its id or its place |
| RbacBundle.HistoryIsNewest | src/services/redis-rbac.repository.ts:295-298 | After n pushes the history is the newest min(10, n) snapshots, newest first |
| RbacBundle.RollbackUndone | src/services/rbac-bundle.service.ts:334-342 | A rollback followed by a rollback to the entry it made brings the snapshot's parts back, exactly the new keys the first one named stay, and the whole state returns if and only if the condition for a compensation holds |
| RbacBundle.RbacBundleService.Export | src/services/rbac-bundle.service.ts:67-90 | A full export is a snapshot of the state |
| RbacBundle.RbacBundleService.ExportSections | src/services/rbac-bundle.service.ts:91-98 | A narrowed export keeps exactly the chosen sections of the full one, or all when the list is empty or long enough |
| RbacBundle.RbacBundleService.ApplyBundle | src/services/rbac-bundle.service.ts:232-304 | The write sequence fails only if a command goes unanswered; otherwise it leaves exactly the state that `BundleEffects.RolesAfterImport`, `ImportKeyByKey` and `OrgsAfterImport` describe; if one does, done or not, a state that differs only by what that section's writes of this bundle do |
| RbacBundle.RbacBundleService.Import | src/services/rbac-bundle.service.ts:140-184 | A rejected bundle changes neither state nor history; an accepted one is applied, or, only if a command goes unanswered, undone by its snapshot, and left inconsistent only if a second one does: completely under the condition above, else except for new keys it names, and its new route maps and roles all stay once the rules are reached |
| RbacBundle.RbacBundleService.Compensate | src/services/rbac-bundle.service.ts:170-180 | The snapshot applied over what a failed import left: undone as far as the conditions above say, or, if and only if a command goes unanswered, inconsistent |
| RbacBundle.RbacBundleService.Rollback | src/services/rbac-bundle.service.ts:334-342 | Applies the entry's snapshot as a full import, itself snapshotted |
| BundleEffects.RolesAfterImport | src/services/rbac-defaults.ts:11-18 | A service the import gives roles or registers ends with the roles the bundle gives, as given, and the default ones it leaves out: of these only admin holds the wildcard, all others stay within the service, and viewer (list, read), editor (create, update) and operator (delete, execute) each add to the one before |
| BundleEffects.GlobalRolesPassThrough | src/services/rbac-bundle.service.ts:268-272 | The global roles are stored as the bundle gives them |
| BundleEffects.ImportKeyByKey | src/services/rbac-bundle.service.ts:232-304 | Whole or in part, every service, group, route map and the rules: the bundle's value in a wanted section, else the old one unless a full restore prunes it; tags untouched |
| BundleEffects.OtherRolesAfterImport | src/services/rbac-bundle.service.ts:241-281 | Roles the import does not write stay unless their service is pruned |
| BundleEffects.OrgsAfterImport | src/services/rbac-bundle.service.ts:293-301 | A named org, in either bundle format, is stored with its non-empty names once each in order of first mention, and goes when there are none; other orgs stay |
| BundleEffects.BuiltRulePasses | src/services/rbac-bundle.service.ts:108-138 | A rule the control plane builds for a new service passes the import's validation if and only if name and URLs are given, methods known, and its posture's handlers enabled |
| BundleEffects.LabelsTellApart | src/services/rbac-bundle.service.ts:112-118 | Failures of rules without an id name different places |
| Recert.RunSound | src/services/recert.service.ts:63-389 | After any run, items fit their campaign's status, nobody decided an item about themselves, the index holds exactly the waiting items, and reports exist exactly for completed campaigns |
| Recert.StepKeepsSound | src/services/recert.service.ts:63-389 | Each operation, also one cut short or left without an answer, keeps all of that |
| Recert.InboxIsScan | src/services/recert.service.ts:399-412 | The inbox built from the index is exactly what scanning every item would give, with no reference twice |
| Recert.RunRemembers | src/services/recert.service.ts:231-335 | From any point of any run on, decisions and deciders, completed campaigns, their items and their reports never change |
| Recert.CutShortIsForever | src/services/recert.service.ts:299-335 | A campaign left closing never completes and never gets a report |
| Recert.DeletedSubjectStopsClose | src/services/recert.service.ts:312-318 | A reachable state in which a close cannot complete and leaves the campaign closing |
| Recert.DeletionOverlap | src/services/recert.service.ts:123-133 | A deletion that has found a draft empty and overlaps its activation keeps the invariant if and only if no item is generated, or each of its two deletions comes before the write it would undo; else references point nowhere |
| Recert.ReportAddsUp | src/services/recert.service.ts:338-389 | Every completed campaign has a report with total = approved + revoked + autoRevoked + flagged, kept = approved, reviewer columns summing to total and to approved + revoked, and the unused expiry column zero |
| Recert.OperationsSpareMemberships | src/services/recert.service.ts:422-427 | No operation empties a group list, drops the default group, or removes a group without a revoked or expired-to-revoke item for that pair, or a request for it whose answer was lost |
| Recert.UnansweredThenApproved | src/services/recert.service.ts:260-267 | From every sound state, a revoke whose answer is lost leaves the item pending and open to approval while the membership is gone |
| RecertEffects.RevokeTakesMembership | src/services/recert.service.ts:258-262 | In every sound world a completed revoke leaves its subject without the group, with the others in order or only the fallback, and everybody else as they were |
| RecertEffects.ApprovalKeepsMemberships | src/services/recert.service.ts:258-271 | An approval takes nothing away |
| RecertEffects.CloseTakesMemberships | src/services/recert.service.ts:312-318 | A completed close under revoke leaves no subject of a pending item with its group and everybody with the rest in order; under flag nobody loses anything |
| RecertEffects.CutShortTakesMemberships | src/services/recert.service.ts:312-318 | A close cut short takes exactly the memberships that were asked for |
| RecertEffects.UnansweredTakesMembership | src/services/recert.service.ts:258-262 | So does a revoke whose answer was lost |
| RecertEffects.DecisionIsRecorded | src/services/recert.service.ts:251-271 | The item carries decision, decider, comment and outcome; other items change only when the campaign completes, approved ones then being marked kept |
| RecertEffects.LastDecisionCompletes | src/services/recert.service.ts:272-288 | The reference leaves the inbox; the campaign completes and its report freezes the items if and only if nothing else was pending; no other campaign changes |
| RecertEffects.CloseSettlesItems | src/services/recert.service.ts:299-346 | After a close every item has its outcome by decision and policy, the campaign is over, and none of its references is left |
| RecertEffects.CutShortSettlesItems | src/services/recert.service.ts:299-335 | After one that was cut short exactly the answered items have it, the campaign is closing, and nothing is reported |
| RecertEffects.ActivationOpens | src/services/recert.service.ts:137-160 | The draft opens with exactly the items made, each referenced under its reviewer |
| RecertEffects.CampaignDeleted | src/services/recert.service.ts:123-133 | A deletion leaves no item of the campaign and every other campaign as it was |
| RecertEffects.DeletedLeavesNoRef | src/services/recert.service.ts:123-133 | Nor does it leave a reference |
| RecertEffects.ReportCounts | src/services/recert.service.ts:361-389 | In every run each number of a completed campaign's report, overall and per reviewer, is the number of items with that decision |
| GroupList.StrippedStep | src/services/recert.service.ts:422-427 | Removing groups one after another equals removing them together, fallback included |
| RecertService.OneItemPerMembership | src/services/recert.service.ts:192-220 | A listed identity gets one item per occurrence of an in-scope group, and no other |
| RecertService.NoStrayItem | src/services/recert.service.ts:192-220 | No item for a group out of scope or an identity not listed |
| RecertService.ReviewerIsNotSubject | src/services/recert.service.ts:196-204 | An item's reviewer is a campaign reviewer, and its own subject only when there is nobody else, exactly then flagged |
| RecertService.ReviewersTakeTurns | src/services/recert.service.ts:196-204 | Item k goes to reviewer k modulo their number, or to the first other one if that is its subject, and is about the membership it was made for |
| RecertService.ScopeExactly | src/services/recert.service.ts:172-177 | The groups the campaign names, or else all defined ones, never the default group |
| RecertService.GroupsInOrder | src/services/recert.service.ts:194-195 | One identity's items come in the order of its group list |
| RecertService.ListedInOrder | src/services/recert.service.ts:192-193 | Identities come in the order of the listing |
| RecertService.RecertService.CreateCampaign | src/services/recert.service.ts:63-100 | Accepts exactly the inputs that pass all checks, and stores a draft with normalised, de-duplicated reviewers |
| RecertService.RecertService.DeleteCampaign | src/services/recert.service.ts:123-133 | Deletes exactly drafts and archived campaigns, with items and index entries |
| RecertService.RecertService.GenerateItems | src/services/recert.service.ts:171-221 | The nested walk produces exactly the specified items, reviewers taking turns |
| RecertService.RecertService.ActivateCampaign | src/services/recert.service.ts:137-160 | Activates exactly drafts; items, index and status end as the model says |
| RecertService.RecertService.RemoveGroupMembership | src/services/recert.service.ts:422-427 | Removes the group or falls back to the default group; when it fails, it has done that or nothing |
| RecertService.RecertService.Decide | src/services/recert.service.ts:231-288 | A decision is exactly one model event, with the one error for each refusal; a completed revoke takes exactly the one membership, an approval none; a failure changes nothing but a membership whose removal went unanswered |
| RecertService.RecertService.CloseCampaign | src/services/recert.service.ts:299-335 | Completes, under revoke with every pending membership gone, or stops with exactly the items done so far expired and at most one removal unanswered; it fails only under revoke with something pending, for an unknown subject or an outage |
| RecertService.RecertService.Finalize | src/services/recert.service.ts:338-346 | Approved items become kept, the campaign completes, an existing report is kept |
| RecertService.RecertService.BuildReport | src/services/recert.service.ts:361-389 | The counting loop yields exactly the specified report |
| RecertService.RecertService.GetInbox | src/services/recert.service.ts:399-412 | Returns each due item of the reviewer once and nothing else |
| Power.WildcardGroupNames | src/services/rbac.service.ts:650-674 | Exactly the groups with an unlimited binding |
| Power.DefGrantsGlobalPower | src/services/rbac.service.ts:376-389 | True exactly for a global binding that is super_admin or resolves to the wildcard |
| Power.GroupGrantsAdminPower | src/services/rbac.service.ts:391-412 | True exactly for the same groups as the wildcard walk |
| Power.ClassifyGroup | src/services/access-review.service.ts:190-216 | Global power, wildcard services and bound services of a group |
| Power.ReviewAgreesOnGroups | src/services/access-review.service.ts:190-216 | The review calls a group powerful exactly when the other two derivations do |
| Power.InvertRosters | src/services/access-review.service.ts:219-226 | The index maps a lower-cased address to exactly the organisations whose roster names it |
| Power.ReviewIdentity | src/services/access-review.service.ts:246-288 | The identity's rung, reach, administered organisations and orphan flag are the declared ones |
| Power.ComputeReview | src/services/access-review.service.ts:163-366 | Lists exactly the identities on a rung, sorted by the order below, and counts those on the top two |
| Power.ReviewOrder | src/services/access-review.service.ts:362-364 | In that order everybody stands once, and ties keep directory order; who precedes whom is `ReviewMeaning.PlacesInTheList` |
| Power.DirectoryStats | src/services/rbac.service.ts:706-745 | Active, full-access, unassigned, per-service, per-group and per-organisation counts are exact |
| Power.FullAccessIsTopTier | src/services/rbac.service.ts:728-729 | Holding a wildcard group is standing on one of the two top rungs |
| Power.CountsAgree | src/services/access-review.service.ts:366-366 | The dashboard's full-access count equals the review's can-do-anything count on every directory |
| ReviewMeaning.ListedFor | src/services/access-review.service.ts:246-288 | An identity stands on the rung of the strongest thing it holds: a global role that may do anything, such a role on a service, an organisation it administers, or reach of at least three services |
| ReviewMeaning.EntrySays | src/services/access-review.service.ts:246-288 | Wildcard services, reach, organisations and orphan flag say exactly what groups, roles and rosters give |
| ReviewMeaning.GlobalAgainstWildcard | src/services/access-review.service.ts:450-463 | Global power is listed before a wildcard holder if and only if that one reaches at most 40 services more, less 60 for each further wildcard service; at equal reach, if it holds at most one |
| ReviewMeaning.WildcardAgainstOrgs | src/services/access-review.service.ts:450-463 | One wildcard service is listed before an organisation's administrator if and only if that one reaches at most 20 more, less 40 for each further organisation; at equal reach, if it administers at most one |
| ReviewMeaning.OrgAgainstReach | src/services/access-review.service.ts:450-463 | One organisation is listed before broad reach if and only if four times that reach exceeds its own by at most 25; at equal reach, up to eight services |
| ReviewMeaning.MoreNeverLowers | src/services/access-review.service.ts:450-463 | On one rung, holding more never lowers the place, and more reach, or more of what the rung counts, raises it |
| ReviewMeaning.ReachDecides | src/services/access-review.service.ts:450-463 | On the highest and the lowest rung the reach alone decides |
| ReviewMeaning.PlacesInTheList | src/services/access-review.service.ts:360-364 | In the finished list these comparisons hold of the positions |
| ReviewMeaning.WhoIsListed | src/services/access-review.service.ts:246-288 | Everybody on a rung is listed and nobody else |
| ReviewMeaning.CountsOfIdentities | src/services/rbac.service.ts:711-735 | The dashboard's numbers are the numbers of identities that are active, hold nothing but the base group, may do anything by the review, or name a service |
| Resolver.ResolveRoles | src/services/rbac-resolver.service.ts:67-90 | Exactly the roles the groups bind globally or on the application |
| Resolver.ResolvePermissions | src/services/rbac-resolver.service.ts:92-111 | Exactly the permissions of those roles in either map |
| Resolver.Resolve | src/services/rbac-resolver.service.ts:30-65 | The two loops compute exactly the permissions the chain of definitions grants |
| Resolver.ReviewMissesCrossedRoles | src/services/rbac-resolver.service.ts:92-111 | For an identity the review does not count, the resolver grants everything if and only if a role name crosses between the application's map and the global one |
| Resolver.CrossedRoleExample | src/services/rbac-resolver.service.ts:92-111 | It happens for every application and role name |
| Resolver.PowerReachesResolver | src/services/rbac-resolver.service.ts:67-111 | An identity the review counts is granted everything somewhere if and only if a role name it holds is starred in a map the resolver consults; otherwise it holds the bare super_admin |
| Resolver.BareSuperAdmin | src/services/rbac-resolver.service.ts:92-111 | Counted by the review, granted nothing by the resolver |
| ImpactPreview.AffectedBy | src/services/impact-preview.service.ts:147-190 | The loops compute exactly the declared sets of affected users and services |
| ImpactPreview.UnaffectedUserKeepsPermissions | src/services/impact-preview.service.ts:147-190 | A listed user outside the affected ones keeps the same permissions in every application unless the global map is proposed |
| ImpactPreview.UserSideExactly | src/services/impact-preview.service.ts:132-190 | For a proposal, that holds for every configuration if and only if the global map is not proposed |
| ImpactPreview.UnaffectedServiceUnchanged | src/services/impact-preview.service.ts:147-190 | An application outside the affected services is unchanged for every user whose global roles stay the same (and cover what a newly listed address loses with the base group), unless the global map is proposed |
| ImpactPreview.ServiceSideExactly | src/services/impact-preview.service.ts:147-190 | With no global map proposed, no unlisted application changes for anybody, whatever the role maps say, if and only if nobody's global roles change and newly listed addresses lose nothing with the base group |
| ImpactPreview.NoGlobalBindingNoGlobalMove | src/services/impact-preview.service.ts:155-178 | They cannot when no changed group and no edited membership binds a global role |
| ImpactPreview.GlobalEditReachesUnlistedApps | src/services/impact-preview.service.ts:188-189 | A global role given to a group changes any application though none is listed |
| ImpactPreview.Sampler.Push | src/services/impact-preview.service.ts:200-207 | Adds a tuple unless its key is there or the sample is full |
| ImpactPreview.SampleTuples | src/services/impact-preview.service.ts:194-242 | Keys are distinct, limits hold, counts add up, nothing foreign is sampled, and nothing is missed unless a limit is reached |
| ImpactPreview.SampleFor | src/services/impact-preview.service.ts:225-241 | Unless full, every affected user is probed on every route the affected services declare before or after |
| ImpactPreview.VerdictsLandOnTheirTuples | src/services/impact-preview.service.ts:282-287 | In whatever order answers arrive, each tuple gets its own verdict because keys are distinct |
| ImpactPreview.Compare | src/services/impact-preview.service.ts:98-109 | Losses, gains and unchanged partition the sample, losses and gains in order |
| PreviewEffects.MergedKeyByKey | src/services/impact-preview.service.ts:132-143 | In all four tables of the second dataset a proposed key has the proposed value and any other key the current one |
| PreviewEffects.MayAfterwards | src/services/impact-preview.service.ts:132-143 | There an edited user may do exactly what the proposed groups grant, anybody else what the current ones do, each group and role under its proposed definition if there is one |
| PreviewEffects.NothingProposed | src/services/impact-preview.service.ts:132-190 | An empty proposal changes nothing and affects nobody |
| PreviewEffects.ReportedFlips | src/services/impact-preview.service.ts:98-109 | The losses are the tuples allowed before and denied after, the gains the reverse, each as often as sampled, and the rest is counted |
| Walks.StepKeepsClean | src/services/kratos.service.ts:424-484 | No step but an invalidation leaves anything old in the identity cache, in a scan, or in a walk of this generation |
| Walks.OldPagesArePublished | src/services/kratos.service.ts:424-484 | Whatever old identity page is left, some run publishes it with no write or invalidation in between |
| Caches.ReviewLiveNeverStale | src/services/access-review.service.ts:121-161 | In every interleaving the cached review comes from a walk of the current generation, with live sources no older than the last invalidation, and at most one walk is in flight |
| Caches.ReviewNeverStale | src/services/access-review.service.ts:121-161 | In every interleaving whose last invalidation finds no old identity page, whatever the earlier ones found, the cache is empty or no older in any source than that invalidation |
| Caches.StaysFreshExactly | src/services/access-review.service.ts:121-161 | From any state the review stays fresh on every later run, until the next invalidation and through clean ones, if and only if cache, identity cache, scans and walks at work hold nothing old |
| Caches.InvalidationExactly | src/services/access-review.service.ts:128-131 | After any history, an invalidation keeps the review fresh until the next one, and from then on, if and only if it finds no old identity page |
| Caches.OldScanDefeatsInvalidation | src/services/kratos.service.ts:433-482 | A reachable state where a scan has read a page that then changed: no invalidation suffices |
| Caches.OldBindingsDefeatInvalidation | src/controllers/admin.controller.ts:420-422 | A reachable state after a deletion with the identity cache refilled in between: invalidating the review alone does not suffice |
| Caches.ColdReadFreshness | src/services/access-review.service.ts:134-161 | A waiting reader is sure of a fresh result if and only if the walk it joins has read nothing older than the last invalidation, itself or through its own scan |
| Caches.ColdReadJoinsStaleWalk | src/services/access-review.service.ts:146-147 | A run in which a reader after an invalidation waits for a walk from before it |
| Caches.AccessReviewCache.GetAccessReview | src/services/access-review.service.ts:134-144 | Serves what is cached, starting at most one refresh, or waits for a walk |
| Caches.AccessReviewCache.Refresh | src/services/access-review.service.ts:146-160 | Joins the walk in the slot or starts one, which takes the cached identities or scans for itself |
| Caches.AccessReviewCache.InvalidateAll | src/services/access-review.service.ts:128-131 | New generation, empty cache, identity cache left alone |
| Caches.AccessReviewCache.ClearSlot | src/services/access-review.service.ts:156-159 | The slot is emptied if it still holds the settled walk |
| Caches.AccessReviewCache.Finish | src/services/access-review.service.ts:149-154 | Publishes exactly when no invalidation landed meanwhile |
| DirectoryCounts.CountsNeverStale | src/services/rbac.service.ts:676-773 | In every interleaving whose last invalidation finds nothing old, counts stored once its deletion is delivered are no older than it; if all find nothing old, never older than the last delivered deletion; at most one walk in flight always |
| DirectoryCounts.CountsLiveNeverStale | src/services/rbac.service.ts:676-773 | In every interleaving, with no condition on what invalidations with a new generation find, stored counts come with live sources no older than the last delivered deletion, queued writes no older than the deletion before them, and at most one walk is in flight |
| DirectoryCounts.InvalidationExactly | src/services/rbac.service.ts:462-473 | After any history, either invalidation keeps the stored counts fresh from the delivery of its deletion on if and only if it finds nothing old |
| DirectoryCounts.StatsInvalidationExactly | src/services/rbac.service.ts:759-773 | After any history, that invalidation keeps the stored counts fresh on every run from the delivery of its deletion on if and only if it finds no old identity page |
| DirectoryCounts.OldScanDefeatsStatsInvalidation | src/services/kratos.service.ts:433-482 | A reachable state with a scan overtaken by a change, where dropping the identity cache does not help |
| DirectoryCounts.BundleInvalidateExactly | src/services/rbac.service.ts:462-473 | The other invalidation does so if and only if, besides, no walk of this generation still at work has read anything old |
| DirectoryCounts.BundleInvalidateOvertaken | src/services/rbac.service.ts:462-473 | Otherwise, whatever is queued, that walk's counts are stored after the deletion |
| DirectoryCounts.Drain | src/services/rbac.service.ts:745-752 | Redis catching up on any queue stores its last write |
| DirectoryCounts.DirectoryStatsCache.InvalidateDirectoryStats | src/services/rbac.service.ts:759-773 | New generation first, then the identity cache dropped and the deletion issued |
| DirectoryCounts.DirectoryStatsCache.InvalidateBundle | src/services/rbac.service.ts:462-473 | Deletion without a new generation, identity cache left alone |
| DirectoryCounts.DirectoryStatsCache.GetDirectoryStats | src/services/rbac.service.ts:676-693 | Serves the stored counts, refreshing behind them, or waits |
| DirectoryCounts.DirectoryStatsCache.Finish | src/services/rbac.service.ts:745-752 | Stores the counts exactly when no new generation began meanwhile |
| CacheProgress.ReviewFills | src/services/access-review.service.ts:134-160 | From every sound state a walk that nothing disturbs publishes exactly what it read, live and from the identity cache or its own scan, the slot is freed, and the next reader is served that |
| CacheProgress.CountsFill | src/services/rbac.service.ts:676-752 | The same for the counts, once Redis has applied the one command |
| CacheProgress.WalkReadsWhatIsThere | src/services/kratos.service.ts:424-484 | Such a walk has read the current versions, and leaves the identity cache with the pages it was given |
| CacheProgress.OvertakenPublishesNothing | src/services/access-review.service.ts:146-160 | A second reader joins the walk under way, and one overtaken by an invalidation publishes nothing |
| Bootstrap.MarkerHistory | src/bootstrap/index.ts:83-235 | Over any runs by any code versions, migrations form one rising chain from nothing to the recorded version, the version never falls, and the first-bootstrap time never changes |
| Bootstrap.RepeatRunIsNoOp | src/bootstrap/index.ts:83-153 | A second run with the same build is a no-op that changes neither marker nor RBAC data |
| Bootstrap.UpsertedTwice | src/bootstrap/index.ts:192-202 | Repeating the upserts at any later time changes nothing |
| Bootstrap.FirstRunTwice | src/bootstrap/index.ts:178-190 | A first run over a completed first run changes nothing |
| Bootstrap.UpsertPromise | src/bootstrap/upsert-rules.ts:13-24 | Custom rules survive in order, built-in ids are the built-in rules, idempotent |
| Bootstrap.TagAllPromise | src/bootstrap/migrate-system-metadata.ts:50-95 | Every listed resource that exists becomes system, nothing else changes, descriptions and creation data stay |
| Bootstrap.DelegationPromise | src/bootstrap/seed-delegation.ts:37-104 | The delegation seed overwrites nothing, is complete for every existing delegated service, and is idempotent |
| Bootstrap.OrgAdminIsBounded | src/bootstrap/seed-delegation.ts:49-60 | A seeded org_admin role has user management and the viewer's permissions, never the wildcard |
| BootstrapEffects.OutcomeMeans | src/bootstrap/index.ts:83-153 | A run has work unless the marker is of this very build, built-ins included, or of a newer schema |
| BootstrapEffects.IdleRun | src/bootstrap/index.ts:91-132 | A run without work writes no marker and at most tags; a downgrade not even that |
| BootstrapEffects.MarkerWritten | src/bootstrap/index.ts:204-235 | A run with work leaves the marker of this build, stamped now, with one more migration exactly if the schema rose |
| BootstrapEffects.BuiltInRulesStored | src/bootstrap/index.ts:192-194 | For every install and build, a run with work leaves every built-in rule stored, found by its id if ids are distinct, no other rule under such an id, and all others in order |
| BootstrapEffects.BuiltInRoutesStored | src/bootstrap/index.ts:195-195 | Stored routes stay in front; a built-in key without foreign permissions ends with exactly the built-in ones, any other as it was |
| BootstrapEffects.OtherRoutesStay | src/bootstrap/index.ts:178-202 | No other service's route map changes, but for an empty one for kuma on a first run |
| BootstrapEffects.DelegationInPlace | src/bootstrap/seed-delegation.ts:37-104 | Every delegated service that exists has its org_admin role, which holds no wildcard if it is new, and its two groups, bound to that service alone if new; nothing the seeders left is changed, and on upgrade or drift that is what was there |
| BootstrapEffects.TagsInPlace | src/bootstrap/migrate-system-metadata.ts:50-95 | Every listed group and service that exists carries the system tag |
| BootstrapEffects.FirstRunOpensTheDoor | src/bootstrap/seed-rbac.ts:16-45 | After a first run on a store without groups super_admins binds super_admin globally, that role holds the wildcard, jinbe and global are registered, and kuma with its admin binding if the app is configured |
| BootstrapEffects.FirstRunMapsKuma | src/bootstrap/seed-kuma.ts:52-59 | kuma then has a route map |
| BootstrapEffects.SuperAdminsMayDoAnything | src/services/rbac-resolver.service.ts:30-111 | After such a run the resolver grants a member of super_admins everything in every application |
| BootstrapEffects.ControlPlaneRoles | src/bootstrap/seed-rbac.ts:16-45 | And of the control plane's roles only admin holds the wildcard, viewer, editor and operator growing as listed |
| BootstrapEffects.FirstRunKeepsGroups | src/bootstrap/seed-kuma.ts:29-50 | A first run on a store with groups keeps each of them, adding to administrators and viewers their role on kuma exactly if it registers that service |
| BootstrapService.Bootstrapper.RunBootstrap | src/bootstrap/index.ts:83-153 | A held lock changes nothing, a forced run forgets the marker, and the branches do exactly what the decision function says to marker and store: a run with work leaves the built-in rules stored and the system tagged, one on an empty store a super admin's way in |
| BootstrapService.Bootstrapper.BuildMarker | src/bootstrap/index.ts:204-235 | The marker and its migration list as specified |
| BootstrapService.Bootstrapper.SeedRbacDefaults | src/bootstrap/seed-rbac.ts:16-45 | Seeds the defaults exactly when there is no group |
| BootstrapService.Bootstrapper.SeedKumaService | src/bootstrap/seed-kuma.ts:17-59 | Seeds service, roles and group bindings when the service is new, and the route map when missing |
| BootstrapService.Bootstrapper.ApplySystemMetadataMigration | src/bootstrap/migrate-system-metadata.ts:50-95 | The two loops tag exactly as specified |
| BootstrapService.Bootstrapper.SeedDelegation | src/bootstrap/seed-delegation.ts:37-104 | The loop adds exactly the missing roles and groups |
| RouteMapMerge.MergeJinbeRouteMap | src/bootstrap/merge-route-map.ts:27-80 | The loops append exactly the specified rules and write nothing when none is missing |
| RouteMapMerge.MergePromise | src/bootstrap/merge-route-map.ts:27-80 | Existing rules stay a prefix, operator-owned keys get nothing, every other built-in key ends with exactly the built-in permissions |
| RouteMapMerge.PathPromise | src/bootstrap/merge-route-map.ts:5-23 | The same for method and path, with colon-free methods |
| RouteMapMerge.CompleteExactly | src/bootstrap/merge-route-map.ts:27-80 | With colon-free built-in methods, every built-in path without a foreign permission ends complete, for every stored map, if and only if no built-in path holds a colon |
| RouteMapMerge.MergeIdempotent | src/bootstrap/merge-route-map.ts:27-80 | Merging again adds nothing, for every stored map |
| RouteMapMerge.KeysCollideExactly | src/bootstrap/merge-route-map.ts:24-24 | Two methods can share a key if and only if they are equal or one is the other followed by a colon and more |
| RouteMapMerge.KeyIsMethodAndPath | src/bootstrap/merge-route-map.ts:24-24 | With colon-free methods a key is a method and a path |
| RouteMapMerge.ColonHidesBuiltIn | src/bootstrap/merge-route-map.ts:50-71 | With a colon in a method a built-in path stays incomplete |
| CanonicalJson.Canonicalize | src/bootstrap/hash.ts:17-26 | The recursive loop computes the canonical form |
| CanonicalJson.CanonDecidesMeaning | src/bootstrap/hash.ts:17-26 | Without `__proto__` members, two values share a form if and only if they are equal up to key order at every depth |
| CanonicalJson.CanonDecidesView | src/bootstrap/hash.ts:17-26 | In general, if and only if they are so after dropping those members |
| CanonicalJson.CanonIdempotent | src/bootstrap/hash.ts:17-26 | The canonical form of a canonical form is itself |
| CanonicalJson.CanonFaithfulExactly | src/bootstrap/hash.ts:17-26 | The form is faithful to a value if and only if no object in it has such a member |
| CanonicalJson.ProtoIsLost | src/bootstrap/hash.ts:23-24 | Two different values with the same form |
| AuditCsv.ExportReadsBack | src/routes/audit.routes.ts:189-201 | A reader following section 2 of RFC 4180, with LF between records, gets the header and the original cells back; if it allows no bare CR, if and only if no cell holds one unquoted |
| AuditCsv.TableReadsBack | src/routes/audit.routes.ts:193-200 | The same for every table of non-empty rows, with any mix of commas, quotes and line feeds |
| AuditCsv.ExportInjective | src/routes/audit.routes.ts:193-201 | Two exports are equal if and only if all cells are |
| AuditCsv.CellUnderItsName | src/routes/audit.routes.ts:189-199 | Every cell stands under the name of its field |
| AuditSummary.Summarize | src/services/audit-event.service.ts:542-602 | Every counter holds, key by key, the number of rows of the window it counts |
| AuditSummary.SummaryReply | src/services/audit-event.service.ts:604-627 | The series lists every bucket once in time order; the top lists hold the ten largest counts, descending, and nothing left out is larger |
| AuditSummary.SummaryAddsUp | src/services/audit-event.service.ts:542-628 | total + prevTotal = rows; total = sum by kind = by result = by category = over time; failed = failures by category = denied + error + failed |
| AuditSummary.FailureRateIsRatio | src/services/audit-event.service.ts:622-622 | The rate lies in [0, 1], is 1 only if all failed and 0 only if none did |
| AuditSummary.FoldCategory | src/services/audit-event.service.ts:197-208 | No legacy category survives folding, and every other category is kept |
| AuditSummary.ReadAs | src/services/audit-event.service.ts:556-602 | How one row is read: the window's limit inclusive, the defaults of absent fields, the folded category, the kind of a row without one, the bucket |
| AuditSummary.SummaryOfRows | src/services/audit-event.service.ts:542-602 | Total, failures, denials per target, changes per actor and active actors, counted among the rows themselves |
| Identities.SameGroupsExactly | src/controllers/admin.controller.ts:52-59 | A list is accepted if and only if it is a reordering of the stored groups; anything else only for an empty membership |
| Identities.GroupsNeverMove | src/controllers/admin.controller.ts:281-409 | No sequence of full updates, metadata patches and state changes alters anybody's stored groups |
| Identities.OmittedMetadataExactly | src/controllers/admin.controller.ts:380-389 | A full update without admin metadata keeps it whole if and only if there are no stored groups or nothing else |
| Identities.RefusedExactly | src/controllers/admin.controller.ts:281-391 | Refused are exactly unknown identities and requests whose groups are no reordering of the stored ones |
| Identities.UpdateWrites | src/controllers/admin.controller.ts:363-391 | A full update, key by key: what it gives, the rest as before, admin metadata replaced whole once there is a membership to pin; nobody else changes |
| Identities.PatchWrites | src/controllers/admin.controller.ts:281-316 | A metadata patch writes its keys over the old ones, the membership apart, and no more |
| Identities.StateWrites | src/controllers/admin.controller.ts:335-341 | A state change changes the state |
| Identities.CleanedExactly | src/services/kratos.service.ts:667-674 | Other groups keep their order, nobody is left without a group, and the name is gone unless it is the fallback |
| Identities.CleanedKeepsOtherMetadata | src/services/kratos.service.ts:581-595 | No other admin metadata, state or trait changes |
| Identities.WhoStillHoldsIt | src/services/kratos.service.ts:653-679 | Exactly who still holds a deleted group's name when the clean-up ends or is stopped after any users |
| Identities.VanishedUserSparesTheNext | src/services/kratos.service.ts:656-676 | In every clean-up that comes to a listed user who has left the directory, everybody who comes after keeps the name |
| Identities.CleanedInOrder | src/services/kratos.service.ts:653-679 | A clean-up in any order, stopped or not, has done exactly the users before the stop, and counted each holder once |
| Identities.AdminController.UpdateIdentity | src/services/kratos.service.ts:275-300 | Parts not given keep their value, traits merge, nobody else changes |
| Identities.AdminController.UpdateUser | src/controllers/admin.controller.ts:363-391 | Refused exactly for an attempt to change the groups, otherwise the pinned update |
| Identities.AdminController.SetUserMetadata | src/controllers/admin.controller.ts:281-316 | Refused exactly for an attempt to change the groups, otherwise the key-by-key merge |
| Identities.AdminController.SetUserState | src/controllers/admin.controller.ts:335-341 | Changes the state only |
| Identities.AdminController.PrepareCreate | src/controllers/admin.controller.ts:179-229 | What is created never carries groups, and every desired list but the base group goes through the grant check |
| Identities.AdminController.RemoveGroupFromAllUsers | src/services/kratos.service.ts:653-679 | The loop is such a clean-up over the snapshot: the directory, the count, and where it stopped; a vanished holder always stops it |
| GroupWriters.SafeExactly | src/services/user-groups.service.ts:117-118 | Whatever these kinds of writers do at the same time, no update of a user's groups is lost, if and only if all of them hold the lock or all are generic writes |
| GroupWriters.UndisturbedLosesNothing | src/services/user-groups.service.ts:110-118 | A run in which every writer still finds what it has read loses no update, whoever takes part |
| GroupWriters.RevokesOverlap | src/services/recert.service.ts:422-427 | Of two overlapping revokes the first is undone if and only if the groups differ |
| GroupWriters.RewriteReverts | src/controllers/admin.controller.ts:379-391 | An update that lands between a generic write's read and its write is lost if and only if it changed anything |
| GroupWriters.WriterMakes | src/services/user-groups.service.ts:151-170 | An edit goes through if and only if it gains nothing the actor may not add and loses nothing the actor may not remove; a revoke or clean-up takes the one group and leaves the others in order |
| GroupWriters.LoneWriter | src/services/user-groups.service.ts:119-151 | A writer nobody disturbs writes what it makes of the stored groups |

## Left out

- RedisLock.NoLostUpdate: lists, imports, built-in upserts and plain group edits that write without the lock are not among the steps; clocks are one integer, without drift between Redis and callers.
- AccessRules.CreatedMainRule: covers calls whose locked sections run; the source also swallows a refused lock or a Redis error there, which leaves the rule unwritten too.
- AccessRules.PostureAlways: direct rule replacement through the rule editor is not among the edits, since it may set any posture.
- RbacBundle.RbacBundleService.Export: timestamps and counts in replies are not modelled.
- RbacBundle.ValidateOathkeeperRules: which strings are URLs is a parameter, and failure texts are kinds rather than sentences.
- RbacBundle.RbacBundleService.ApplyBundle: writes of one section issued together are taken one after another; a command the client repeats by itself counts as one; a route map is its list of rules.
- Recert.RunSound: operations on one campaign take turns, so a close or decision that outlives its lock's TTL is not covered, nor is an unlocked deletion that overlaps another operation (`Recert.DeletionOverlap` covers an activation); Redis itself does not fail in the middle of an operation, only the directory does; ids are counters; item context other than the self-review flag, audit events and timestamps are left out.
- Recert.OperationsSpareMemberships: the directory's own changes between operations are arbitrary events and not judged; operations of two campaigns on one user take turns here, and `GroupWriters.RevokesOverlap` says what is lost when they do not.
- Power.ComputeReview: flags other than orphaned, grant paths, provenance and MFA enrichment are left out.
- ImpactPreview.AffectedBy: group definitions are compared as maps, the source compares their text, so it may list more groups as changed, never fewer; the policy engine's own decisions are outside the model.
- ImpactPreview.SampleTuples: turning a route pattern into a probe path and an event into a tuple are parameters.
- DirectoryCounts.CountsNeverStale: one process and deletions that reach Redis; a second replica has its own generation counter and identity cache and is not covered.
- Walks.StepKeepsClean: a page of identities is one source with one version; how the five seconds of the identity cache pass is an arbitrary event.
- Bootstrap.RepeatRunIsNoOp: completed runs; restoring a backup on the first run and seeding the admin identity are left out; a corrupt marker stops a run before it starts.
- Bootstrap.MarkerHistory: unforced runs; the manual-migration field, which is carried along unchanged, is left out.
- CanonicalJson.CanonDecidesMeaning: members are ordered by character code as the sort leaves them; an engine that enumerates integer-like keys first orders them differently but by key set alone. The hash function itself is not part of this model.
- AuditSummary.Summarize: rows arrive parsed.
- Identities.GroupsNeverMove: requests run one after another (`GroupWriters.SafeExactly` says when they may overlap); entries of a list are compared as what they print as.
- GroupWriters.SafeExactly: the lock admits one holder at a time, as `RedisLock.MutualExclusion` proves for sections within their TTL; writers outside this service are not covered.
- Case folding and trimming are ASCII. Objects used as tables are plain maps, so names such as `constructor` behave like any other key.
- HTTP routes, schemas, plugins, audit emission, OPA and OPAL pushes, backups, Kubernetes, SCIM, cron and waiting loops: plumbing without a further invariant.
