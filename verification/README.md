# Nebari landing service: verified model

A Dafny 4.11 model of the service-discovery API's concurrent state and of two
small programs beside it, with proofs of what they guarantee. Protocols are
state machines (`Step` over an `Action`, a disabled action changes nothing);
a theorem about "every schedule" is about `Runs.Exec` over an arbitrary
sequence of actions. The objects that the program updates in place are classes,
each method proved against a function on the object's contents; the machines
and lemmas are about those same functions.

- **JWKS refresh** (`JwksFields`, `JwtValidator`, `JwksProtocol`, `JwksTheorems`,
  `JwksRefresh`, `JwksLookup`):
  an init loop, any number of request threads and refresh goroutines share the
  key set (JWK Sets, section 5 of RFC 7517), the coalesced call, the cooldown
  and the negative kid cache. One action is one critical section, clock read or
  network response, so the clock reading used for the cooldown may be stale.
- **Service cache and health checker** (`Domain`, `ServiceCache`, `HealthChecker`,
  `HealthProtocol`, `HealthHistory`, `HealthTheorems`, `HealthPosts`): `reconcile` starts and
  cancels one probe loop per UID while services come and go and probes run
  without the lock. A config that was replaced or removed and comes back is part
  of every schedule; the theorems on posts that need its absence say so.
- **Probe URLs** (`Text`, `Urls`, `ProbeTargets`, `ProbeRunner`): building a probe URL and the
  runner's validating parser, down to label syntax (section 2.3.1 of RFC 1035)
  and authority syntax (section 3.2 of RFC 3986).
- **Access requests** (`AccessRequests`, `AccessRequestTheorems`, `AccessStore`):
  SET NX and the write pipeline of `Create`, and the read and the pipeline of
  `UpdateStatus`, are separate atomic steps of any number of calls. `AccessStore`
  has the store on one string keyspace and shows it to be the typed tables.
- **Event fan-out and page** (`AccessPolicy`, `Hub`, `HubProtocol`, `Fanout`,
  `LaunchpadView`, `Convergence`): the access decision, the hub that snapshots
  its clients and writes to them while they come and go, the cache changes with
  what each publishes, and the reducer over the page's cards. A cache change and
  its publish are one step.
- **WebSocket tickets** (`Tickets`): issue, redeem, upgrade and clock steps.
- **Marker injection** (`Gendocs`, with two names in one document in `GendocsNames` and
  `GendocsBlocks`) and **schema examples** (`SchemaExamples`).

Where the code falls short of what its documentation promises, the model follows
the code. It says exactly when, but for the last point and for two posts of which the
second is late, where both outcomes are shown:

- `UpdateStatus` resolves requests that are no longer pending, `Create` deletes its
  dedup key after any error, also one that only lost the reply, and a write of
  `Create` that the client sends again makes a resolved request pending. Each can let
  a user have two pending requests for one service.
- A probe loop posts "back online" after it has stored the recovery, with no lock in
  between. A post for a config replaced meanwhile can follow another one directly.
- A list of services read before frames that the page has already taken undoes them,
  and so does a health update published after the entry it read has changed.
- A session whose ticket was checked before its token's expiry and that `ServeWS`
  reaches after it gets no timer and stays open.
- The builder of probe URLs checks escapes only up to a `?`, the runner's parser also
  after a `#`: with a `?` before the malformed escape the runner rejects what was built.
- A second run of `gendocs` fails if the only blocks of the first name stood inside
  those of the second.
- `mapService` shows a service without a display name under an empty name, while
  GET /services falls back to its resource name.

## Model

| member | source | states |
|---|---|---|
| `JwtValidators.JwtValidator.FetchPublicKeys` | internal/auth/jwt_validator.go:433-507 | one uninterrupted fetch: a non-empty key set is installed, the negative cache cleared and the fetch counted; anything else is counted as a failure and leaves the keys |
| `JwtValidators.JwtValidator.InitLoop` | internal/auth/jwt_validator.go:208-257 | the active attempts and then the slow poll, as far as they have got: every field is what the fetches back to back leave until one succeeds or the stop signal is seen |
| `JwtValidators.InitialisedExactly` | internal/auth/jwt_validator.go:208-257 | ready, with the keys of the first usable answer before a stop and an empty negative cache, exactly if there is one; every earlier answer is counted as a failure |
| `JwtValidators.JwtValidator.StartPublicKeysRefresh` | internal/auth/jwt_validator.go:534-573 | join the refresh in flight; else skip if and only if the last start or the fetch read is less than a minute before the reading; else start one: the fields after it are those of the step the protocol uses |
| `JwtValidators.JwtValidator.FinishPublicKeysRefresh` | internal/auth/jwt_validator.go:565-569 | the result is published and `done` closed once more |
| `JwtValidators.JwtValidator.UnknownKIDCached` | internal/auth/jwt_validator.go:575-589 | an entry is a hit if and only if it has not expired; an expired one is deleted |
| `JwtValidators.JwtValidator.PruneUnknownKIDsLocked` | internal/auth/jwt_validator.go:613-619 | the loop removes exactly the expired entries |
| `JwtValidators.JwtValidator.RememberUnknownKID` | internal/auth/jwt_validator.go:591-611 | prune, evict one entry if full, insert |
| `JwksFields.RememberedBound` | internal/auth/jwt_validator.go:596-610 | the negative cache stays within its maximum whichever entry is evicted, holds the new kid, and gains no other |
| `JwksTheorems.SingleFlightAlways` | internal/auth/jwt_validator.go:208-257 | in every schedule at most one JWKS request is in flight; attempts = successes + failures + in flight; calls to start = started + coalesced + skipped |
| `JwksTheorems.DoneClosesOnce` | internal/auth/jwt_validator.go:556-570 | each refresh closes `done` at most once, exactly when its goroutine has ended, and its result is known exactly from then on |
| `JwksTheorems.KeysAlwaysLatest` | internal/auth/jwt_validator.go:494-497 | the key set is always that of the latest successful fetch (or of the one before while that is being installed) and non-empty once ready |
| `JwksTheorems.ReadyStays` | internal/auth/jwt_validator.go:216-221 | `ready` never goes back, whatever happens after |
| `JwksTheorems.AcceptedKeyWasServed` | internal/auth/jwt_validator.go:370-406 | a token is only checked against a key that some JWKS response bound to its kid |
| `JwksTheorems.RefreshRateBounded` | internal/auth/jwt_validator.go:534-558 | recorded refresh starts are pairwise at least the minimum interval apart with stale clock readings too, so a window of length w holds at most w / interval + 1 |
| `JwksTheorems.SpacedReach` | internal/auth/jwt_validator.go:547-554 | n spaced starts inside a window reach over n - 1 intervals of it |
| `JwksRefresh.CooldownHasReason` | internal/auth/jwt_validator.go:547-554 | in every schedule a caller is refused by the cooldown only if a refresh was started or keys were installed less than a minute before its clock reading, or after it |
| `JwksRefresh.RefreshStartsExactly` | internal/auth/jwt_validator.go:534-573 | in every schedule, with none in flight, a caller is refused if and only if the last start or the installation it read of is that recent; else the refresh starts, recorded at its reading, and it waits; so it is whenever no start and no installation is recent |
| `JwksRefresh.CooldownEnds` | internal/auth/jwt_validator.go:547-554 | a minute after any schedule no refresh is refused for coming too soon |
| `JwksLookup.LookupAlone` | internal/auth/jwt_validator.go:369-412 | after any schedule, a lookup nobody interrupts: the key if there; else refused if the kid is cached or a refresh too soon; else the outcome of one refresh, with a kid still absent remembered for five minutes; keys over an hour old are refreshed behind the caller |
| `JwksLookup.InitAlone` | internal/auth/jwt_validator.go:208-221 | an attempt of the init loop nobody interrupts: ready with the keys of a usable answer, else the failure is counted and the next attempt is due |
| `JwksFields.RememberedExactly` | internal/auth/jwt_validator.go:591-611 | the kid is cached for five minutes; every other entry is kept as it was but for expired ones and, only when full, the evicted one |
| `JwksTheorems.NegativeCacheSound` | internal/auth/jwt_validator.go:379-397 | in every schedule the cache is bounded, and each entry goes back to a refresh that succeeded and to a key set, no older than that refresh, which lacked the kid |
| `JwksTheorems.OnlyAbsentKidsEnter` | internal/auth/jwt_validator.go:391-396 | a kid enters the cache only from a caller that re-read the keys after a successful refresh and missed it |
| `JwksTheorems.NegativeEntriesExpire` | internal/auth/jwt_validator.go:596-610 | in every schedule an entry of the negative cache expires within its lifetime of five minutes from now |
| `JwksTheorems.CachedKidInKeysIsOutdated` | internal/auth/jwt_validator.go:494-503 | at the finest granularity a cached kid can be among the keys only if a newer key set brought it in |
| `JwksTheorems.RememberKeepsDisjoint` | internal/auth/jwt_validator.go:391-396 | remembering a kid keeps cache and keys disjoint if and only if the kid is still absent at that moment |
| `JwksTheorems.CacheDisjointFromKeys` | internal/auth/jwt_validator.go:494-503 | with "install and clear" and "re-read and remember" unsplit, cached kids are never among the keys |
| `ServiceCaches.ServiceCache.Add` | internal/cache/service_cache.go:159-208 | the cache after adding an app, entry, health and drop reason, whatever it held; a disabled app is removed |
| `ServiceCaches.ServiceCache.Remove` | internal/cache/service_cache.go:211-216 | entry and drop reason of that UID go, nothing else changes |
| `ServiceCaches.ServiceCache.RecordHealthCheckDrop` | internal/cache/service_cache.go:220-233 | the drop reason of that UID becomes the given one or none, others stay |
| `ServiceCaches.ServiceCache.HealthFor` | internal/cache/service_cache.go:344-356 | health survives an update except when the check is lost |
| `ServiceCaches.ServiceCache.HealthStatusIfCurrent` | internal/cache/service_cache.go:309-321 | the status, if and only if the config is the active one |
| `ServiceCaches.ServiceCache.UpdateHealthIfCurrent` | internal/cache/service_cache.go:328-338 | check and write in one: the entry changes in place if and only if the config is the active one, no other entry does |
| `ServiceCaches.AddedExactly` | internal/cache/service_cache.go:159-208 | the entry has the app's own fields, private unless it says otherwise, with the health of the entry before unless the check is new or lost; a drop reason exactly if a check was dropped; all other services as they were |
| `ServiceCaches.AddKeepsWellformed` | internal/cache/service_cache.go:159-208 | a cached service without a check has status unknown and no last check; a drop reason belongs to a cached service without a check |
| `ServiceCaches.StoreKeepsWellformed` | internal/cache/service_cache.go:328-338 | storing a current result keeps that |
| `HealthCheckers.HealthChecker.Reconcile` | internal/health/checker.go:178-221 | the loops over services and over `running` compute the specified probe set, from any state |
| `HealthCheckers.HealthChecker.ReconcileService` | internal/health/checker.go:190-206 | cancel and replace a loop whose config changed, start a missing one, leave an equal one |
| `HealthCheckers.HealthChecker.StopInactive` | internal/health/checker.go:210-218 | exactly the entries outside `activeUIDs` are cancelled and deleted |
| `HealthCheckers.HealthChecker.StopAll` | internal/health/checker.go:224-231 | every running loop is cancelled and forgotten |
| `HealthCheckers.HealthChecker.ForgetRunningProbe` | internal/health/checker.go:323-330 | cancelled and forgotten only if the config is still the same |
| `HealthCheckers.ReconcileExact` | internal/health/checker.go:178-221 | run alone from any `running`: defined on exactly the UIDs with a config, with equal configs; unchanged loops keep their token; a running token is cancelled if and only if its config changed or went |
| `HealthCheckers.ReconcileIdempotent` | internal/health/checker.go:178-221 | a second run changes nothing |
| `HealthTheorems.RunningIsUncancelledLoops` | internal/health/checker.go:178-231 | while the parent context lives, `running` is exactly the live uncancelled loops with their configs, in every interleaving |
| `HealthTheorems.OneLoopPerUid` | internal/health/checker.go:190-206 | no UID ever has two uncancelled loops, A-B-A configs included |
| `HealthTheorems.StoppedMeansCancelled` | internal/health/checker.go:224-231 | after `stopAll` nothing runs uncancelled, in every interleaving |
| `HealthTheorems.StopsForGood` | internal/health/checker.go:224-231 | when the parent is cancelled with no reconcile under way `stopAll` ends the checker, whatever follows |
| `HealthTheorems.RemovedIsNotStored` | internal/health/checker.go:306-330 | the result of a probe whose service goes meanwhile is not stored; its loop leaves `running`, if still there, and ends |
| `HealthTheorems.StoredResultsAreCurrent` | internal/health/checker.go:306-321 | every stored result was measured for the config active at the write; services without a check show unknown |
| `HealthTheorems.RecoveriesAreSeparated` | internal/health/checker.go:306-321 | between two stored changes from unhealthy to healthy of one service lies a stored unhealthy |
| `HealthTheorems.PostsReportRecoveries` | internal/health/checker.go:491-496 | if no config comes back once replaced or removed, every "back online" post reports its own stored recovery of that service |
| `HealthTheorems.RecoveriesArePosted` | internal/health/checker.go:491-496 | then also every stored recovery has been posted, is about to be, or found its service gone |
| `HealthPosts.PostsAreSeparated` | internal/health/checker.go:306-321 | in every schedule in which no config comes back: two posts for one UID have a stored unhealthy between them if they report recoveries under the same config, or if each was made while its config was still in force |
| `HealthPosts.UnseparatedExactly` | internal/health/checker.go:491-496 | two posts with none between them are for different configs; if the second is on time, there is none between them if and only if also the first is late and after the drop before the second recovery |
| `HealthPosts.NotWrittenBeforePost` | internal/health/checker.go:306-321 | nothing is stored for a service between a recovery and its post on time |
| `HealthPosts.LatePostsMeet` | internal/health/checker.go:306-321 | the schedule, for any app whose config is replaced between storing a recovery and posting it: two posts with nothing between them, the second one late |
| `HealthPosts.LatePostsApart` | internal/health/checker.go:306-321 | the same with an unhealthy status stored in between, so lateness of the second post decides neither way |
| `ProbeTargets.ProbeTimesBounded` | internal/cache/service_cache.go:384-398 | the interval is as asked within 10 to 300 s, 30 s if not asked; the timeout is the least of what is asked (5 s if not), 30 s and the interval |
| `ProbeTargets.ProbeURLParses` | internal/cache/service_cache.go:461 | parsing a printed probe URL gives back its authority and path, or fails exactly on a malformed escape after a # |
| `ProbeTargets.RunnerReadsBuiltTarget` | internal/health/probe_runner.go:66-91 | the runner accepts the URL built for a NebariApp and reads from it the same service, namespace and port, if and only if the text after a # has no malformed escape |
| `ProbeTargets.RunnerAcceptsPlainPath` | internal/health/probe_runner.go:66-91 | a path without # is always accepted, with that target |
| `ProbeTargets.NormalizeExactly` | internal/cache/service_cache.go:467-490 | a path is accepted, as it is, if and only if it is short enough, starts with one slash, has no control character and no malformed escape before a ? |
| `ProbeTargets.EscapePassesBehindQuery` | internal/cache/service_cache.go:467-490 | a malformed escape in an accepted path has a ? before it |
| `ProbeTargets.RunnerRejectsBehindQuery` | internal/health/probe_runner.go:66-91 | any kept check stays kept with the path `/?#%zz` and the runner then rejects its URL; with `/#%zz` it is dropped |
| `ProbeTargets.KeptExactly` | internal/cache/service_cache.go:412-465 | a NebariApp's check is kept if and only if it has no URL of its own, path, labels and port are valid, the namespace is its own or consented, and the target is in no protected or "-system" namespace, not default/kubernetes, on no protected port; what is kept probes that service, namespace, port and path |
| `ProbeTargets.StaticKeptExactly` | internal/cache/service_cache.go:398-411 | a static service's check is kept if and only if it has a URL, which is probed as it is and trusted |
| `ProbeTargets.DropReasonApplies` | internal/cache/service_cache.go:412-460 | the reason reported for a dropped check applies to it, with the values it names |
| `ProbeTargets.ProtectionExactly` | internal/cache/service_cache.go:519-533 | a target is protected if and only if its namespace, its Service or its port is one of those |
| `ProbeTargets.RunnerAcceptsOnlyAllowed` | internal/health/probe_runner.go:66-91 | what the runner accepts names a Service by valid labels and is not protected |
| `ProbeRunners.RunnerExactly` | internal/health/probe_runner.go:66-91 | for any string: accepted, with that target, if and only if it is an HTTP URL without malformed escapes whose authority reads as a host with a port, of two labels or of four and more with "svc" third, valid and not protected |
| `ProbeRunners.AuthorityExactly` | internal/health/probe_runner.go:66-76 | an authority reads as a host if and only if text before an @ is plain user information, the host unescapes and is no IP literal, and what follows its last colon is digits |
| `Text.DecimalRoundTrip` | internal/cache/service_cache.go:461 | the port reads back as printed |
| `AccessRequests.StepKeepsInv` | internal/accessrequests/store.go:102-256 | every step of every `Create` and `UpdateStatus`, failed and resent ones included, keeps the indexes exact and held keys justified, and in orderly runs every pending request its key |
| `AccessRequests.ResolveKeepsLocksIff` | internal/accessrequests/store.go:240-251 | an `UpdateStatus` pipeline leaves every pending request holding its dedup key if and only if its request was still pending, or the key was free or leaked |
| `AccessRequests.FailKeepsLocksIff` | internal/accessrequests/store.go:143-147 | a `Create` that saw an error does if and only if it does not delete the key of a request that the server had written after all |
| `AccessRequests.ResendKeepsLocksIff` | internal/accessrequests/store.go:126-142 | a write pipeline of `Create` that is sent again does if and only if its request is still pending |
| `AccessRequests.RewriteIdempotentIff` | internal/accessrequests/store.go:126-142 | sending it again changes nothing if and only if the request is still pending |
| `AccessRequestTheorems.IndexesAlwaysExact` | internal/accessrequests/store.go:126-142 | in all runs, repeated resolves and resent writes included: all is every id, pending the pending ones, the user indexes split them by user, each under its request time in milliseconds |
| `AccessRequestTheorems.HeldKeyIsJustified` | internal/accessrequests/store.go:115-147 | in all runs a held dedup key names a pending request of that user and service, a `Create` between its steps, or one whose cleanup failed |
| `AccessRequestTheorems.OnePendingPerPair` | internal/accessrequests/store.go:102-149 | at most one pending request per user and service in runs without a resolve of a request no longer pending, without a failed `Create` that took effect and was cleaned up after, and without a `Create` sent again after its request was resolved |
| `AccessRequestTheorems.KeyHeldExactly` | internal/accessrequests/store.go:115-149 | in those runs the key is held exactly while such a request is pending or being created |
| `AccessRequestTheorems.TwiceResolvedTwicePending` | internal/accessrequests/store.go:221-256 | resolving one id twice lets two requests of the same user and service be pending: the schedule, for any three requests |
| `AccessRequestTheorems.UndoneCreateTwicePending` | internal/accessrequests/store.go:143-147 | so does deleting the key after a write whose reply was lost: the schedule, for any two requests |
| `AccessRequestTheorems.ResentCreateTwicePending` | internal/accessrequests/store.go:126-142 | so does a write sent again after its request was resolved: the schedule, for any two requests |
| `AccessRequestTheorems.ListPendingAcrossSteps` | internal/accessrequests/store.go:179-216 | when other calls get between the read of the index and the read of the hashes: exactly the requests pending at the first, newest first, as they are at the second; one pending at the second is missed only if it was created or made pending again in between |
| `AccessRequestTheorems.CreateOutcome` | internal/accessrequests/store.go:102-149 | an uninterrupted `Create` writes nothing when the key is held and else adds its request, pending under the key, and touches no other |
| `AccessRequestTheorems.UpdateOutcome` | internal/accessrequests/store.go:221-256 | an uninterrupted `UpdateStatus` gives the request its status and resolution, changes nothing else about it or any other, takes it off the pending index and frees the key of its pair |
| `AccessKeys.PrintInjective` | internal/accessrequests/store.go:33-39 | hash, index, user and dedup keys never coincide and no builder repeats a key, for UUID ids and colon-free service UIDs |
| `AccessKeys.DedupKeysCoincide` | internal/accessrequests/store.go:262-264 | two dedup keys are equal exactly for one pair, or if a colon in a service UID lets a piece of it pass for the end of the user name |
| `AccessKeys.AssignRepresents` | internal/accessrequests/store.go:260-264 | a change under one printed key changes the typed tables there and nowhere else |
| `AccessStores.Store.Create` | internal/accessrequests/store.go:102-149 | on the string keyspace: result and tables for a held key and for a SET NX or a write that is acknowledged, applied with its reply lost, or not applied, with and without cleanup |
| `AccessStores.Store.WriteRequest` | internal/accessrequests/store.go:126-142 | the four commands of the pipeline are the typed write |
| `AccessStores.Store.Get` | internal/accessrequests/store.go:153-162 | for any string asked for, a request is returned if and only if it is the id of one, and it is that one |
| `AccessStores.Store.UpdateStatus` | internal/accessrequests/store.go:221-256 | resolves exactly the stored ids, with the dedup key of the stored request released, also when the reply is lost; other strings change nothing |
| `AccessStores.Store.ListFromIndex` | internal/accessrequests/store.go:179-216 | the fetch loop returns the records of the ids in order, skipping missing ones |
| `AccessStores.ListAllExact` | internal/accessrequests/store.go:165-167 | `ListAll` is every request once, newest first: none is a millisecond or more younger than one before it |
| `AccessStores.ListPendingExact` | internal/accessrequests/store.go:170-172 | with nothing between its two reads `ListPending` is exactly the pending requests, newest first to the millisecond |
| `AccessStores.ListForUserExact` | internal/accessrequests/store.go:175-177 | `ListForUser` is exactly that user's requests, newest first to the millisecond |
| `AccessPolicies.HasRequiredGroups` | internal/api/handlers.go:1282-1296 | the nested loops decide whether some group of the user and some required one are the same, but for one leading slash; none required means yes |
| `AccessPolicies.GroupMatchesExactly` | internal/api/handlers.go:1298-1304 | two names match if and only if they are equal or one is the other with a slash before it |
| `AccessPolicies.PlainNamesExactly` | internal/api/handlers.go:1282-1304 | among names without a leading slash, membership is having a required name |
| `AccessPolicies.CanAccessPolicy` | internal/api/handlers.go:1262-1280 | public to all; anything else, unknown values included, to signed-in members |
| `AccessPolicies.CanAccessService` | internal/api/handlers.go:1242-1248 | the same decision from JWT claims |
| `AccessPolicies.SlashesDoNotMatter` | internal/api/handlers.go:1298-1304 | full group paths and short names of the same groups, on either side, grant the same access |
| `AccessPolicies.GetServices` | internal/api/handlers.go:515-522 | the filter loop returns the visible services in order with the caller's pins |
| `AccessPolicies.GetNotifications` | internal/api/handlers.go:747-771 | the filter loop returns the readable notifications in order with the read flags |
| `AccessPolicies.ListingExact` | internal/api/handlers.go:515-522 | a card is listed if and only if it is that of a service which is public, or the caller is signed in and in a required group: its id, display name or else name, status, and the caller's pin |
| `AccessPolicies.ListingInOrder` | internal/api/handlers.go:515-522 | the cards come in the order of the services |
| `AccessPolicies.NotificationListingExact` | internal/api/handlers.go:747-771 | an item is listed if and only if its notification is about no service or under the same policy visible, with the caller's read flag |
| `Hubs.Hub.Dispatch` | internal/websocket/hub.go:223-268 | malformed or empty frames change nothing; any other reaches exactly the clients it is for, drops those whose connection fails, and leaves all others alone |
| `Hubs.Hub.BroadcastService` | internal/websocket/hub.go:274-295 | the loop offers the frame to each client once, filtered by the policy |
| `Hubs.Hub.BroadcastNotification` | internal/websocket/hub.go:307-341 | the same for notifications, untagged ones unfiltered |
| `Hubs.Hub.BroadcastAll` | internal/websocket/hub.go:345-356 | everyone gets it |
| `Hubs.Hub.WriteOrDrop` | internal/websocket/hub.go:361-367 | written if the connection takes it, dropped if not |
| `Hubs.Hub.Drop` | internal/websocket/hub.go:464-473 | forgotten and closed, once |
| `Hubs.Hub.Register` | internal/websocket/hub.go:417-426 | a new client that has received nothing |
| `Hubs.DeliversExactly` | internal/websocket/hub.go:223-341 | which client gets which frame: without a policy all that says something, with one services and tagged notifications by the access decision |
| `Hubs.ServiceDecisionIsRest` | internal/api/handlers.go:1242-1257 | the hub lets a service event through to a client if and only if GET /services lists that service for the same identity |
| `Hubs.NotificationDecisionIsRest` | internal/api/handlers.go:747-762 | the same for notifications and GET /notifications |
| `HubProtocol.ReceivedExactly` | internal/websocket/hub.go:223-367 | in every schedule a client whose connection works has received, in order, exactly the frames for it dispatched since it registered, up to the one on its way |
| `HubProtocol.RegisteredReceives` | internal/websocket/hub.go:417-426 | a client that registers after any schedule has, while its connection works, received exactly the frames dispatched since that its own identity may see |
| `HubProtocol.DispatchReaches` | internal/websocket/hub.go:223-295 | a frame dispatched by the idle hub is offered to every registered client: one it is for gets it or, with a failing connection, is dropped; nothing happens to another |
| `HubProtocol.NothingAfterClose` | internal/websocket/hub.go:464-473 | once closed or dropped, a client receives nothing more, whatever follows |
| `Fanouts.ChangeFeed.OnAdd` | internal/watcher/watcher.go:300-321 | cache change and published frame of an added NebariApp |
| `Fanouts.ChangeFeed.OnUpdate` | internal/watcher/watcher.go:339-367 | an update publishes the new entry; disabling the landing page removes the service and publishes the old one |
| `Fanouts.ChangeFeed.OnDelete` | internal/watcher/watcher.go:382-398 | the entry goes and is published as it was, if there was one |
| `Fanouts.ChangeFeed.ResyncCrossNamespaceApps` | internal/watcher/watcher.go:255-283 | the loop is one update per listed app with a Service in another namespace, in order |
| `Fanouts.ChangeFeed.StoreProbeResult` | internal/health/checker.go:306-321 | a stored result is published with the entry it changed; a stale one changes and publishes nothing |
| `Fanouts.CacheAfterWellformed` | internal/watcher/watcher.go:300-409 | every sequence of events keeps the cache well-formed |
| `LaunchpadViews.UpsertExact` | frontend/src/hooks/useLaunchpadData.ts:89-115 | "added" and "modified" replace the card of that service keeping its pin, or add it, and touch no other |
| `LaunchpadViews.WithoutExact` | frontend/src/hooks/useLaunchpadData.ts:117-118 | "deleted" removes that card and no other |
| `LaunchpadViews.ReceivedCard` | frontend/src/api/mapServices.ts:4-23 | after an added or modified frame the page has a card of that service with its display name and Healthy, Unhealthy or Unknown as its status says in any letter case; a new card is not pinned |
| `LaunchpadViews.UpsertInPlace` | frontend/src/hooks/useLaunchpadData.ts:89-115 | a replaced card keeps its place, a new one comes first, the others stay in order |
| `LaunchpadViews.PinsSurvive` | frontend/src/hooks/useLaunchpadData.ts:87-123 | no frame changes the pin of a card that survives it, nor makes duplicate ids |
| `Convergence.StepEffect` | internal/watcher/watcher.go:300-409 | what any event does to a service is told by its frame, of the event's own kind, or there is nothing to tell |
| `Convergence.StepConvergesIff` | frontend/src/hooks/useLaunchpadData.ts:80-123 | a step keeps a correct page correct if and only if it takes no service away from the viewer that stays cached |
| `Convergence.HeardIsRight` | frontend/src/hooks/useLaunchpadData.ts:80-123 | whatever it showed at first, the page is right about every service it has since heard of |
| `Convergence.SnapshotConverged` | internal/api/handlers.go:515-522 | a freshly loaded list is right |
| `Convergence.PageConverges` | frontend/src/hooks/useLaunchpadData.ts:80-123 | after any further events, in particular with older frames applied on top of a newer list: no duplicate id, ids exactly those of GET /services, each card with the display name (or, from the list, the name) and the status cached now |
| `Convergence.LateListConvergesIff` | frontend/src/hooks/useLaunchpadData.ts:12-14 | a list that arrives after newer frames overwrites their news; after further events the page is right if and only if each service has been heard of since or its entry in the list still tells what the cache held on arrival |
| `Convergence.LateModifiedConvergesIff` | internal/health/checker.go:500-508 | split into read and publish, a health update leaves a right page right if and only if the viewer may not see the entry read, or still sees the service and the entry shows it as cached now |
| `Convergence.LateListRestoresDeleted` | frontend/src/hooks/useLaunchpadData.ts:12-14 | the schedule, after any events, for any public service: deleted between the read of the list and its arrival, it is on the page though no longer cached |
| `Convergence.LateModifiedRestoresDeleted` | internal/health/checker.go:500-508 | the schedule for the split health update: the service, deleted between read and publish, returns to a page that was right |
| `Convergence.ConnectedPageConverges` | internal/websocket/hub.go:223-367 | the same page theorem for a client of the hub, from what it received in any schedule |
| `Convergence.ViewAfterIsReceived` | internal/websocket/hub.go:270-295 | the page is the reducer run over the frames the hub lets through |
| `Tickets.TicketStore.Issue` | internal/wsticket/store.go:77-91 | the claims are stored for 30 s |
| `Tickets.TicketStore.Redeem` | internal/wsticket/store.go:97-110 | get and delete: the claims while the key lives, else the unknown-ticket error, and gone either way |
| `Tickets.TicketStore.HandleTicket` | internal/api/handlers.go:274-305 | a client is admitted if and only if its ticket redeems and its token has an expiry still ahead, under the ticket's identity |
| `Tickets.AdmittedExactly` | internal/api/handlers.go:274-305 | in every schedule a redemption opens a session, for its token's expiry, if and only if the token has one still ahead |
| `Tickets.RedeemedOnceInTime` | internal/wsticket/store.go:77-110 | in every schedule a ticket is redeemed at most once, within 30 s of issue, for the claims it was issued with |
| `Tickets.RedeemableExactly` | internal/wsticket/store.go:97-110 | in every schedule redeeming gives an issued ticket's claims if and only if its lifetime is not over and it has not been redeemed |
| `Tickets.SessionsEndWithTheirToken` | internal/websocket/hub.go:435-454 | a ticket opens at most one session; its close is scheduled for the token's expiry, which it then does not outlive, if and only if `ServeWS` reads the clock before it; one reading shared with the check suffices |
| `Tickets.DisconnectedForGood` | internal/websocket/hub.go:464-473 | a served session that disconnects is never open again |
| `Tickets.ServedLateStaysOpen` | internal/websocket/hub.go:435-454 | the schedule, for any ticket whose token expires between the check and `ServeWS`: a session without a timer, open at any later time |
| `Gendocs.RewriteIsJoined` | cmd/gendocs/main.go:54-61 | the new document is the old text outside the blocks with the new block in each place |
| `Gendocs.OutsideUnchanged` | cmd/gendocs/main.go:54-61 | content free of the close marker leaves the text outside the blocks, and the number of blocks, unchanged |
| `Gendocs.NoStraddle` | cmd/gendocs/main.go:52-54 | an occurrence of a marker in text followed by a marker never overlaps that marker |
| `Gendocs.BlockFound` | cmd/gendocs/main.go:54-61 | an injected block is found again as the leftmost shortest match |
| `Gendocs.LastWriteWinsIff` | cmd/gendocs/main.go:47-61 | for a document with a block, injecting c1 then c2 equals injecting c2 if and only if c1 is free of the close marker |
| `Gendocs.InjectTwice` | cmd/gendocs/main.go:47-61 | the same through `inject`, which fails exactly without an open marker and else leaves the text outside with the new block in each place |
| `Gendocs.FirstBlockExactly` | cmd/gendocs/main.go:52-54 | a block runs from the first open marker to the first close marker after it |
| `Gendocs.SplitAtClose` | cmd/gendocs/main.go:54-61 | nothing before a close marker reaches past it |
| `GendocsNames.BothTwice` | cmd/gendocs/main.go:39-40 | for any document, blocks nested or overlapping included: injecting both names again changes nothing, if each content is free of its own close marker and of the other name's markers |
| `GendocsNames.StableKept` | cmd/gendocs/main.go:39-40 | what injecting one name achieved, injecting the other keeps |
| `GendocsNames.MainTwiceIff` | cmd/gendocs/main.go:39-57 | through `inject`, a second run leaves the document as it is if and only if after the first injection an open marker of the first name stands outside the blocks of the second; else it fails |
| `GendocsNames.NestedFails` | cmd/gendocs/main.go:55-57 | the failing case: the only block of the first name inside one of the second |
| `GendocsNames.LeftOutside` | cmd/gendocs/main.go:54-61 | a marker of another name is left after an injection if and only if it stood outside the blocks |
| `GendocsBlocks.OtherBlocks` | cmd/gendocs/main.go:54-61 | if no block of the injected name has a marker of the other in it, every block of the other and the text between them stay in place, each rewritten on its own |
| `GendocsBlocks.OtherBlocksUntouched` | cmd/gendocs/main.go:54-61 | then blocks of the other name without the injected one's open marker are unchanged |
| `SchemaExamples.Generate` | frontend/scripts/generate-msw-handlers.ts:42-92 | the recursion with its loops computes the specified example |
| `SchemaExamples.GenerateAll` | frontend/scripts/generate-msw-handlers.ts:61-68 | the `allOf` loop merges the objects among the parts in order |
| `SchemaExamples.GenerateObject` | frontend/scripts/generate-msw-handlers.ts:82-90 | the property loop fills every property with its own example |
| `SchemaExamples.ObjectExample` | frontend/scripts/generate-msw-handlers.ts:82-90 | an object's example has exactly its properties, each with its own example |
| `SchemaExamples.AllOfExample` | frontend/scripts/generate-msw-handlers.ts:61-68 | an `allOf` example has exactly the keys of its object parts, each with its last value |
| `SchemaExamples.PlainExample` | frontend/scripts/generate-msw-handlers.ts:54-81 | the first enum value, else the first alternative's example, else a value of the schema's type; null for what is no schema |
| `SchemaExamples.RefExample` | frontend/scripts/generate-msw-handlers.ts:45-52 | a reference gives the example of the schema it names, or null if that is being expanded or unknown |
| `SchemaExamples.AlwaysEnds` | frontend/scripts/generate-msw-handlers.ts:42-92 | the recursion as written ends on every schema of every spec, cyclic references included |
| `SchemaExamples.Terminates` | frontend/scripts/generate-msw-handlers.ts:42-92 | with that example, nested no deeper than (references not visited) x (highest schema) + (height) |
| `SchemaExamples.GuardOnlyCutsCycles` | frontend/scripts/generate-msw-handlers.ts:45-52 | wherever following references without a visited set ends, the visited set changes nothing |

## Left out

- HTTP routing, CORS, JSON encoding, log text, Kubernetes informers, the Redis and Keycloak clients, goroutine scheduling: abstract steps, parameters or given functions.
- JWT signatures and base64 decoding of keys: a fetch is a success with a key set or a failure; a key is a pair of numbers.
- The waiting times of the init loop and its slow poll; a refresh call is an index instead of a channel object.
- The Bearer path of `handleWS` with `clockLeeway`, and `handleWS` with authentication disabled.
- `UpdateHealth`, `probe` and `applyProbeResult`, which write without the currency check and which no production path calls.
- Sending the probe and reading its answer; the result is a parameter.
- Bracketed IP hosts and non-UTF-8 input in URLs: probe URLs have neither, and one character stands for one byte.
- Most landing-page fields (icons, category, description, external URL, priority), the order of `GetAll`, and `toApp`: field copies. The order of cards is kept by the reducer and not compared with that of a reload.
- HealthTheorems.PostsReportRecoveries: says nothing of runs in which a replaced or removed config comes back, where a probe begun under its first life can still be stored.
- Commands of another client between those of one Redis pipeline, and a pipeline of which the server applies only a part. A crash between the two steps of `Create` is a call that takes no further step.
- The answer to a SET NX that the client sends again and that finds its own key: in the tables it is a failed `Create` whose cleanup failed.
- The fields of a request's hash as strings and the RFC 3339 text of its times: a hash holds the request. A sorted set's reply to a range query is a parameter required to list it newest first.
- AccessStores.Store.Create: takes the new UUID, the clock and how each command ends on the network as parameters.
- Lifecycle notifications of the watcher: their filtering is modelled, their text and their `initialUIDs` condition are not.
- Redis Pub/Sub between `Publish` and `dispatch`: the log of dispatched frames is given; frames lost or reordered on the way are outside the theorems.
- Convergence.PageConverges: compares pins with nothing, because an event does not carry them; a service that comes new to the page shows as unpinned until a reload.
- The optimistic pin toggle of the page and its rollback, React rendering, the socket client's reconnects.
- Tickets.SessionsEndWithTheirToken: takes a timer to close its session as soon as the clock reaches it.
- Reading and writing the document file in `inject`, and marker names with a `<` or `>`: the two names in use have none. `main` stops at a failed injection; what it had written by then stays.
- The order of keys in a generated example, inherited property names of JavaScript objects, and the handlers' paths and status codes.
