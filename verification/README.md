# A verified model of VAC's control plane

This project models the parts of VAC whose correctness is not visible from one function:
the projection of database rows into Caddy's route table, the scale-to-zero protocol, the
deploy worker pool, the access-log pipeline, the crash-loop monitor, the job scheduler, and
the printers, translations and name derivations around them. Each module follows one part of
the API server and proves what that part is for.

`dafny verify dfyconfig.toml` checks the whole project with Dafny 4.11.

## Layout

| module | models |
|---|---|
| `Text`, `Ordering` | decimal numerals, trimming, case folding; string order, sorting, permutations |
| `Names`, `BindingName` | aliases, route ids, automatic subdomains, preview slugs; binding names of managed databases |
| `ProxyModel`, `RouteTable` | rows, Caddy values, desired routes and route selection; the table and its admin calls |
| `Reconciler` | what each route operation does to the table, and the laws of the projection |
| `RouteManager` | the manager as a class whose every admin call may fail; what failures can and cannot touch |
| `RouteLock` | all entry points interleaved one admin call at a time under `routeMu`, with lost calls, failed reads and restarts |
| `RouteSerial`, `RouteTrace` | serializability of those runs, part by part without lost calls and call by call with them |
| `Duplicates`, `LostDelete` | what the route operations make of ids the table holds twice; how a lost delete gets them there |
| `Toggles` | the maintenance toggles from the flag write to the page |
| `Answers` | what a request for a host gets, told from the database rows alone: addresses, redirects, pages, headers and ids |
| `LoginGate`, `HealthGate` | what routes serve to whom; the guarded host list and host lookup; the deploy's health gate |
| `ScaleToZero` | `Wake`, `Suspend`, deploys and the sweeper interleaved one external call at a time |
| `WorkerPool` | the bounded queue, the loops, the in-flight map, panics and cancels |
| `Tailer`, `Collector` | the incremental log reader against reading the whole file; the bucket ledger |
| `CrashLoop`, `Scheduler` | the death window against the full history; next slots and the dispatch loop |
| `PromExport`, `Scraper` | the exposition printer and the counter parser, which must agree |
| `S3Path`, `AuditDiff`, `AppSpec` | request canonicalisation; the masked environment diff; export, validation and import of apps |
| `Patterns` | the validating regular expressions, with a meaning of their own, and the checks held against them |

Code that changes state step by step is a class or a method with loops, proved against a
function of the old state; protocols between goroutines are state machines whose steps are
the external calls and the critical sections, and the theorems hold in every state of every
run. A failing call is a choice of the environment in both.

## Where the code differs from what is said about it

- `pruneOrphans` counts every domain row, so the route of a domain that was unassigned stays
  in the table (`Reconciler.UnassignedRouteLingers`). The projection is stated for ids that a
  spec owns; the rest is stated as it is.
- The comment on `guardedHosts` says that a private service never appears in it. Its domain
  loop looks neither at `is_private` nor at `redirect_to`, so private services are listed
  exactly through their assigned domain rows (`LoginGate.PrivateListedIff`,
  `LoginGate.PrivateDomainListedWithoutRoute`, `LoginGate.RedirectListedWithoutGate`). The
  list is wider than the installed gates, never narrower.
- `WaitHealthy` does not apply `applyApp`'s private and guard filters.
  `HealthGate.HealthGateAgrees` gives the exact condition under which the two agree.
- `SetLastTrafficAt` writes unconditionally, so the sweeper can put an older time over a fresh
  wake's stamp. A `Suspend` decided before the stamp can then stop the stack if and only
  if the sweeper may write a time no later than that decision (`ScaleToZero.StaleSuspendBacksOff` for
  every run, `ScaleToZero.StaleSuspendStopsIff` for every state).
- "One start per stop" does not survive a wake whose docker start or flag write fails: the
  stack can be started again without a stop if and only if the flag is still set
  (`ScaleToZero.FailedWakeRestartsIff`, `ScaleToZero.MayStartIff`). Nothing else breaks it
  (`ScaleToZero.StartsApart`), and `ScaleToZero.StartsAreEarned` counts such wakes.
- The crash-loop window assumes deaths that do not come late. `CrashLoop.TripsOnKept` says
  what is counted in any order and `CrashLoop.KeptIsWindowIff` when that is the window.
- `PutRoute` is said to avoid duplicate routes, but it passes over the error of its delete.
  When the delete of an id in the table is lost, the append leaves two routes of that id, with
  `routeMu` held throughout (`LostDelete.LostDeleteLeavesOld`; `RouteLock.DistinctIff` gives the
  exact condition). A full Reconcile does not heal that for an id it wants: the number of
  copies stays and an older one is served (`Duplicates.ReconcileHealsIff`,
  `Duplicates.DuplicatesOutlast`).
- A custom domain may be another app's automatic host, because `AddCustomDomain` relies on the
  uniqueness of rows and automatic hosts have none. A visit to that host then resolves to the
  newcomer and wakes the wrong app (`LoginGate.AutoHostCaptured`; `LoginGate.WakeFindsItsAppIff`
  and `LoginGate.AutoHostFindsItsAppIff` give the exact conditions).
- `InstallWakeRoutes` does not look at maintenance, while a Reconcile does
  (`Reconciler.WakeSwapIsReconcile` gives both directions).
- `normalizeHostname` in `appspec` strips one trailing dot, so it is not idempotent
  (`AppSpec.NormalizeTwiceIff`, `AppSpec.ReExportIdempotentIff`).
- `canonicalQuery` sorts raw keys while SigV4 asks for the order of encoded keys
  (`S3Path.EncodedOrderIff`). The keys the client sends are unreserved, where the two agree.
- A log file that is replaced by one at least as long as the offset is not noticed
  (`Tailer.ReplacementSeenIff`), and a failed flush drops its buckets
  (`Collector.FailedWriteLoses`).

## Model

| member | source | states |
|---|---|---|
| `Reconciler.ReconcileConverges` | api/internal/proxy/manager.go:996-1028 | from any table with distinct ids an error-free Reconcile keeps ids distinct and every id ends holding what the database says: the route selected for the spec that owns it (none if not routable), the control route, nothing for an orphan, and otherwise what it held |
| `Reconciler.ReconcileProjects` | api/internal/proxy/manager.go:850-880 | the same from the table's side: what remains under vac-route- or vac-auto- is backed by a domain row or a derived host, and foreign ids are untouched |
| `Reconciler.ReconciledRoute` | api/internal/proxy/manager.go:721-880 | every single route of the reconciled table is a selected route, the control route, or was there before under an id no spec owns |
| `Reconciler.ReconcileIdempotent` | api/internal/proxy/manager.go:996-1028 | a second Reconcile leaves the id-to-route map as it is |
| `Reconciler.ApplySpecsLookup` | api/internal/proxy/manager.go:721-843 | applyApp sets exactly the ids of its specs, each to the selected route or to nothing |
| `Reconciler.PruneLookup` | api/internal/proxy/manager.go:850-880 | pruning removes exactly the managed ids nothing stands behind |
| `Reconciler.UnassignedRouteLingers` | api/internal/proxy/manager.go:855-858 | a domain row that is no longer assigned still keeps whatever route its id has: pruning counts every row |
| `Reconciler.SyncLookup` | api/internal/proxy/manager.go:678-690 | one Sync: the app's ids as selected, the control id, orphans gone, all else unchanged |
| `Reconciler.SyncFrames` | api/internal/proxy/manager.go:678-690 | Sync of one app never alters a route backed by another app, nor a foreign one |
| `Reconciler.SyncsMakeAReconcile` | api/internal/proxy/manager.go:678-690 | syncing every app at least once, in any order and with repetitions, gives the map of one Reconcile |
| `Reconciler.WakeSwapIsReconcile` | api/internal/proxy/manager.go:958-991 | on a converged table InstallWakeRoutes gives the map of a full Reconcile with the app suspended if and only if the app is not in maintenance or has only redirects |
| `Reconciler.WakeRestores` | api/internal/proxy/manager.go:958-991 | the Sync after clearing the flag restores the map from before the suspension; redirects never change in between |
| `Reconciler.SuspensionUndone` | api/internal/scaletozero/waker.go:116-202 | setting and clearing the suspended flag gives back the same rows |
| `Reconciler.Owner` | api/internal/proxy/manager.go:473-489 | the app and spec found for a route id really are a row's and carry that id |
| `Answers.ServiceAnswers` | api/internal/proxy/manager.go:473-489 | after a Reconcile each custom domain and automatic host of a service of a live app has its route, under its own id and host, if the service has a container, a port and the guard it needs and is not private, and else none; a request through it is told too many requests, sent to the login page, or reaches slug--service on the service's port with its path untouched |
| `Answers.ReachedUnderItsName` | api/internal/proxy/manager.go:664-673 | the address it reaches is in two parts: up to the last colon the name under which the Reconcile attached the container to the network, after it the service's port |
| `Answers.HostAnswered` | api/internal/proxy/manager.go:624-656 | a host that one route of the table has is answered by that route |
| `Answers.GuardAsks` | api/internal/proxy/manager.go:584-620 | a route to a service that requires a login first asks vac-api's verify path, with the secret in the query when there is one, and hands on the user's name |
| `Answers.LimitsItself` | api/internal/proxy/manager.go:630-636 | a rate limit stands before everything else, per route and with the app's number |
| `Answers.RedirectAnswers` | api/internal/proxy/manager.go:494-504 | a redirecting domain answers 308 to its target with the path kept, unless the app is in maintenance |
| `Answers.MaintenanceAnswers` | api/internal/proxy/manager.go:512-527 | in maintenance every host of the app answers 503 with its page, its type and when to retry |
| `Answers.SleepAnswers` | api/internal/proxy/manager.go:548-570 | while the app sleeps every host that does not redirect reaches vac-api's wake path with the host, the path and the secret it needs |
| `Answers.SwapAnswers` | api/internal/proxy/manager.go:958-991 | the same after the focused swap of a suspension, on any table |
| `Answers.ControlAnswers` | api/internal/proxy/manager.go:886-907 | the control domain reaches vac-api on its port or 9393, and has no route when unset |
| `Answers.OnlyRowsRemain` | api/internal/proxy/network.go:37-39 | of the ids beginning with vac-route- or vac-auto- only those of a domain row or a public service remain, and other ids keep what they had |
| `Answers.ListedIff` | api/internal/proxy/manager.go:403-437 | the portal's list has a host for a service if and only if the service requires a login and a domain row or automatic host of that name leads to it |
| `Answers.WaitsForServices` | api/internal/proxy/health.go:40-49 | the health gate waits for exactly the addresses of services that have a container and a port and that some host points at |
| `RouteTable.PutLookup` | api/internal/caddy/client.go:45-50 | delete-then-append keeps ids distinct and changes one id only |
| `RouteTable.AppendDistinct` | api/internal/caddy/client.go:42-50 | an append keeps ids distinct exactly when the id is not in the table, which is what the preceding delete is for |
| `RouteTable.DeleteLookup` | api/internal/caddy/client.go:54-56 | a delete removes one id and no other |
| `RouteTable.SameLookupsSameRoutes` | api/internal/proxy/manager.go:996-1028 | tables with distinct ids and equal lookups hold the same routes |
| `ProxyModel.SpecsDistinct` | api/internal/proxy/manager.go:473-489 | the specs of an app have pairwise different ids |
| `ProxyModel.SpecOrigin` | api/internal/proxy/manager.go:473-489 | each spec comes from an assigned domain row of the app or from an HTTP service with an automatic host |
| `ProxyModel.OwnersUnique` | api/internal/proxy/manager.go:473-489 | no route id is desired by two apps |
| `ProxyModel.SpecIDManaged` | api/internal/proxy/network.go:37-39 | every desired id passes the managed-id test |
| `RouteManager.Manager.Sync` | api/internal/proxy/manager.go:678-690 | with no failed call exactly the projection of the app; whatever fails, only the app's ids, the control id and orphans change and only selected routes are added; network attachments follow |
| `RouteManager.Manager.Reconcile` | api/internal/proxy/manager.go:996-1028 | with no failed call the table is the full projection, from any table or the missing server; whatever fails, only desired ids, the control id and orphans change and only selected routes are added |
| `RouteManager.FailedReconcileSpares` | api/internal/proxy/manager.go:996-1028 | whatever calls fail during a Reconcile, foreign routes and routes of rows that own no spec keep their content, and all untouched routes their order |
| `RouteManager.Manager.ApplyApp` | api/internal/proxy/manager.go:721-843 | applyApp in its three branches, framed under failures; attachments are those of routable specs |
| `RouteManager.Manager.PushLive` | api/internal/proxy/manager.go:789-842 | the ordinary branch's loop, with one network attachment per container |
| `RouteManager.Manager.PushSelected` | api/internal/proxy/manager.go:744-787 | the maintenance and suspended branches' loops |
| `RouteManager.Manager.PruneOrphans` | api/internal/proxy/manager.go:850-880 | the sweep over the listed routes |
| `RouteManager.Manager.ApplyControlRoute` | api/internal/proxy/manager.go:886-907 | the control route is put when a control domain is set and deleted otherwise |
| `RouteManager.Manager.Teardown` | api/internal/proxy/manager.go:920-949 | removes the app's routes and detaches its containers, touching nothing else |
| `RouteManager.Manager.InstallWakeRoutes` | api/internal/proxy/manager.go:958-991 | swaps every non-redirect spec to its wake route and detaches the containers |
| `RouteManager.Manager.EnsureBaseConfig` | api/internal/proxy/manager.go:248-270 | loads the base configuration only when the server is missing |
| `RouteManager.Manager.PutRoute` | api/internal/caddy/client.go:45-50 | delete then append, each of which may be lost or take effect without an answer |
| `RouteManager.Manager.DeleteRoute` | api/internal/caddy/client.go:54-56 | one delete call, reported as failed when the id is missing |
| `RouteManager.FailuresSpareOthers` | api/internal/proxy/manager.go:678-690 | whatever calls fail during a Sync, routes of other apps and foreign routes keep place and content |
| `RouteManager.FramedRouteSurvives` | api/internal/proxy/manager.go:721-880 | an id outside the touched set keeps its lookup |
| `RouteManager.WakeReattaches` | api/internal/proxy/manager.go:789-842 | after suspend and wake the app's attached containers are exactly those of its routable specs |
| `RouteLock.OneReplacementAtATime` | api/internal/proxy/manager.go:109-116 | in every state of every run of all entry points interleaved one admin call at a time, with any lost call, failed read, failed attach, failed flag write, database write and proxy restart: at most one id of one goroutine is between its delete and its append, and that goroutine holds routeMu |
| `RouteLock.DistinctIff` | api/internal/caddy/client.go:42-50 | for every such run and every moment: ids were distinct in every state up to it if and only if no delete of an id then in the table had been lost and followed by its append |
| `RouteLock.ReplacedIsGoneIff` | api/internal/caddy/client.go:42-50 | until such an append, an id between its delete and its append is still in the table if and only if that delete was lost |
| `LostDelete.LostDeleteLeavesOld` | api/internal/caddy/client.go:45-50 | for every valid database, app, desired route of it and table: a run of one Sync, the lock held throughout, whose one lost delete is that route's ends with every copy the table had and one more; a route that was there is left twice and the old one is still served |
| `RouteLock.LostDeleteDuplicates` | api/internal/caddy/client.go:45-50 | the same for the control route, by a run that is spelt out; what is reached is reached by a run (`RouteLock.LeadsByRun`) |
| `RouteLock.NoDeadlock` | api/internal/proxy/manager.go:696-716 | no goroutine asks for routeMu while holding it (MaintainOn/Off reach the table only through Sync) and some goroutine can always move |
| `RouteLock.UnlockedSyncsDuplicate` | api/internal/caddy/client.go:42-50 | without the lock two Syncs whose calls all arrive can run so that a duplicate is left, from any table |
| `RouteTrace.FailuresStaySerial` | api/internal/proxy/manager.go:678-1028 | in every run whatever, with calls lost, reads failed, networks missing, flags and rows written and restarts: the calls as they went are those of the operations performed one after another, each from its lock to its unlock with the same failures, and whenever the lock is free the table is what that leaves |
| `RouteSerial.LockedRunsAreSerial` | api/internal/proxy/manager.go:678-1028 | in every run without lost calls, with the maintenance flags written by its own operations and with arbitrary outside database writes and restarts: whenever the lock is free the table is the replay of a log in which each operation runs all its parts before the next begins, each part on the database it read |
| `RouteSerial.LastSyncShows` | api/internal/proxy/manager.go:678-716 | in such a run, when the lock is free after a Sync or a maintenance toggle with no restart in it, the table is the reconciler's Sync, on the database its app was read from, of the table the earlier operations left, unless the backed ids changed before its sweep |
| `RouteSerial.FlagKeepsBacked` | api/internal/store/apps.go:300-335 | setting or clearing a maintenance flag changes no backed id and keeps the database valid, so a toggle never breaks that condition for another operation |
| `RouteSerial.FlagDecides` | api/internal/proxy/manager.go:696-716 | after a Sync every route of the app is its maintenance page if the database read has the flag on, and none is if it has it off |
| `RouteSerial.SerialSync` | api/internal/proxy/manager.go:678-690 | a Sync's section of the log, replayed, is the reconciler's Sync on the database its app was read from |
| `RouteSerial.LastTeardownShows` | api/internal/proxy/manager.go:920-949 | in such a run, when the lock is free after a Teardown, the table is what the earlier operations left without the app's routes |
| `RouteSerial.LastSleepShows` | api/internal/proxy/manager.go:958-991 | and after a suspension's InstallWakeRoutes, with just the app's routes swapped |
| `Toggles.MaintainOnShows` | api/internal/proxy/manager.go:696-701 | MaintainOn alone runs to its end with the flag set in the app's row only and the page on every route of the app |
| `Toggles.MaintainOffShows` | api/internal/proxy/manager.go:707-716 | MaintainOff alone clears a flag that is on and not held by the operator, and no route shows the page |
| `Toggles.MaintainOffKeeps` | api/internal/store/apps.go:315-330 | otherwise it changes nothing |
| `RouteSerial.SerialReconcile` | api/internal/proxy/manager.go:996-1028 | a Reconcile's section of the log on one database, app by app, is the reconciler's Reconcile |
| `Duplicates.ReconcileCopies` | api/internal/proxy/manager.go:996-1028 | what a Reconcile makes of the copies of each id, from any table whatever: one replaced for a wanted id, one dropped for an unwanted one, all gone for an orphan, the rest as they were |
| `Duplicates.ReconcileHealsIff` | api/internal/proxy/manager.go:996-1028 | a Reconcile leaves ids distinct if and only if every duplicated id is an orphan, or is to be removed and has exactly two copies |
| `Duplicates.DuplicatesOutlast` | api/internal/proxy/manager.go:996-1028 | after any number n of Reconciles a wanted id has as many copies as at first; taking Caddy to address the first of several equal @ids, which is an assumption about Caddy, the one served is the n-th of the old ones as long as there are that many |
| `Duplicates.PutServesStale` | api/internal/caddy/client.go:45-50 | a put over a duplicated id keeps the number of copies and leaves an older route in front |
| `Duplicates.CopiesSweep` | api/internal/proxy/manager.go:850-880 | the sweep removes one copy of an orphan for each time the listing names it |
| `LoginGate.ServiceRouteServes` | api/internal/proxy/manager.go:624-656 | a service route lets a request through to its upstream if and only if no login is required or the request is logged in |
| `LoginGate.SelectFailsClosed` | api/internal/proxy/manager.go:721-843 | in any mix of maintenance, suspended, rate limit, private and guard settings no selected route of any app serves a requires_auth service to a request that is not logged in, nor at all with the guard disabled |
| `LoginGate.SyncFailsClosed` | api/internal/proxy/manager.go:678-690 | the same for the table after a Sync |
| `LoginGate.ReconcileFailsClosed` | api/internal/proxy/manager.go:996-1028 | the same for the whole table after a Reconcile: a request that gets through does so by a leftover route that no spec owns |
| `LoginGate.ForwardAuthPrecedes` | api/internal/proxy/manager.go:624-656 | the forward-auth handler strictly precedes the reverse_proxy |
| `LoginGate.GuardedHosts` | api/internal/proxy/manager.go:403-437 | the map built by the two loops is the fold of all entries, later ones winning |
| `LoginGate.ForwardAuthIsGuarded` | api/internal/proxy/manager.go:403-437 | every host whose selected route carries forward-auth is in guardedHosts |
| `LoginGate.AllEntriesOnly` | api/internal/proxy/manager.go:403-437 | every guardedHosts entry is an automatic host or an assigned domain of an app whose service requires a login |
| `LoginGate.PrivateListedIff` | api/internal/proxy/manager.go:403-437 | a private service is listed for a host if and only if it requires a login and an assigned domain row of its app names it and folds to that host |
| `LoginGate.RedirectListedWithoutGate` | api/internal/proxy/manager.go:425-433 | an assigned redirecting domain of a service that requires a login is listed, although its route answers with the redirect |
| `LoginGate.InsertAllMembers` | api/internal/proxy/manager.go:403-437 | a host is in the map exactly when it has an entry, and it maps to one of its entries |
| `LoginGate.InsertAllLast` | api/internal/proxy/manager.go:403-437 | and that is its last one |
| `LoginGate.PrivateDomainListedWithoutRoute` | api/internal/proxy/manager.go:400-437 | a custom domain of a private guarded service is listed although it has no route, against the comment on guardedHosts |
| `LoginGate.AppIDForHost` | api/internal/proxy/manager.go:346-370 | the scans return the owner by assigned domain first, then by automatic host |
| `LoginGate.WakeFindsItsAppIff` | api/internal/proxy/manager.go:346-370 | for any host a route of an app answers to, and any spelling of it, AppIDForHost gives that app if and only if no matching domain row of another app comes before every matching row of its own |
| `LoginGate.AutoHostsApart` | api/internal/proxy/manager.go:291-323 | no two apps share an automatic host, even up to case |
| `LoginGate.CustomDomainFindsItsApp` | api/internal/proxy/manager.go:346-370 | with hostnames stored folded a custom domain always finds its app |
| `LoginGate.AutoHostFindsItsAppIff` | api/internal/proxy/manager.go:346-370 | and an automatic host finds its app if and only if no other app has it as an assigned domain |
| `LoginGate.AutoHostCaptured` | api/internal/server/handler/domains.go:142-176 | adding a domain row with another app's automatic host keeps every constraint of the schema and sends that host's visits to the newcomer |
| `HealthGate.HealthGateAgrees` | api/internal/proxy/health.go:40-51 | for an app neither suspended nor in maintenance every address waited for is installed by its routes if and only if no desired route points at a deployed service that is private or lacks its guard |
| `HealthGate.InstalledInTable` | api/internal/proxy/manager.go:789-842 | what the specs install is in the table after a Sync |
| `HealthGate.Want` | api/internal/proxy/health.go:40-49 | the want set is the set of dials of deployed services with a port |
| `HealthGate.AllHealthy` | api/internal/proxy/health.go:91-108 | true exactly when every wanted address is listed with zero fails |
| `HealthGate.WaitHealthy` | api/internal/proxy/health.go:50-87 | at most max(1, retries) polls; success only on a poll showing every wanted address with zero fails, and on the first such; which of deadline, retries and cancellation ends it otherwise |
| `Names.SlugIffShape` | api/internal/appspec/appspec.go:42 | the slug expression accepts exactly the hyphenated lower-case words |
| `Names.AliasInjective` | api/internal/proxy/network.go:12-14 | alias is injective over slugs and arbitrary service names |
| `Names.DialInjective` | api/internal/proxy/manager.go:664-673 | so is the dialled address, including its port |
| `Names.RouteIDKindsDisjoint` | api/internal/proxy/network.go:18-39 | domain ids, automatic ids and the control id never meet, and the managed test covers the first two |
| `Names.RouteIDInjective` | api/internal/proxy/network.go:18-20 | routeID is injective |
| `Names.AutoRouteIDInjective` | api/internal/proxy/network.go:28-30 | autoRouteID is injective for app ids of one length, as UUIDs are |
| `Names.AutoSubdomainInjective` | api/internal/proxy/hostname.go:22-30 | under one base domain a derived host determines app and service even when single- and multi-service apps mix |
| `Names.Slugify` | api/internal/preview/preview.go:334-351 | empty or a valid slug; keeps exactly the alphanumeric characters of the lower-cased name |
| `Names.SlugOfIsSlug` | api/internal/appspec/appspec.go:363-380 | the same of appspec's DeriveSlug, which repeats the transformation |
| `Names.SlugIsWords` | api/internal/preview/preview.go:334-351 | the slug of a name is the runs of letters and digits of its lower-case form, in order and whole, with one hyphen wherever something was dropped between two of them |
| `Names.DeriveSlug` | api/internal/preview/preview.go:308-330 | a nonempty slug is the parent, a hyphen and the front of the branch's slug: all of it when 63 bytes hold that, and else all they hold less a hyphen at the end; it is then a valid slug for a valid parent; empty exactly when the branch has nothing to keep or the parent leaves no room |
| `BindingName.ResolveBindingName` | api/internal/dbprovision/provisioner.go:212-245 | a requested name is refused when malformed or taken; without one the default name, else the default and the engine, else the default with the first free number from 2, found within two tries more than there are databases |
| `BindingName.SearchBound` | api/internal/dbprovision/provisioner.go:237-244 | the pigeonhole bound that ends the unbounded suffix search |
| `ScaleToZero.OneTransitionAtATime` | api/internal/scaletozero/waker.go:94-108 | in every interleaving at most one goroutine of the app is past acquire |
| `ScaleToZero.StartsAreEarned` | api/internal/scaletozero/waker.go:165-202 | starts never exceed stops plus one if initially suspended plus the wakes whose start or flag write failed, with deploys and the sweeper interleaved |
| `ScaleToZero.HerdStartsOnce` | api/internal/scaletozero/waker.go:165-202 | a herd of wakes without failures and stops starts the stack once |
| `ScaleToZero.StaleSuspendBacksOff` | api/internal/scaletozero/waker.go:116-140 | in every run, a Suspend decided before a completed wake's stamp stops the stack after it only if the sweeper, between stamp and stop, wrote a time no later than that decision over newer traffic; no other write or interleaving lets it through |
| `ScaleToZero.StaleSuspendStopsIff` | api/internal/scaletozero/sweeper.go:99-101 | from any state with the guard's mutual exclusion, whoever holds it and whatever the flag says: a Suspend not past its re-check and decided before the traffic on record can still stop the stack, with no sweeper write below a given time, if and only if that time is no later than its decision (or a Suspend of the same tick is already past its re-check) |
| `ScaleToZero.StaleSuspendStateReachable` | api/internal/scaletozero/waker.go:116-140 | a run from a sleeping app to a completed wake's stamp with an older Suspend still waiting |
| `ScaleToZero.StampsAreEarned` | api/internal/scaletozero/waker.go:165-202 | in every run the goroutine that makes a stamp has read the row, started the stack, cleared the flag, marked the services, synced the routes and passed the health gate, each with success, in this order and nothing else |
| `ScaleToZero.WakeRoutesAreEarned` | api/internal/scaletozero/waker.go:116-160 | and the one that installs wake routes has read the row, stopped the stack, set the flag and marked the services |
| `ScaleToZero.EventsTakeEffect` | api/internal/scaletozero/waker.go:116-202 | what each of these does to the row and the stack; a failed call leaves only that it was made |
| `ScaleToZero.StartsApart` | api/internal/scaletozero/waker.go:165-202 | in every run, between two starts of the stack there is a stop or a wake whose start or flag write failed |
| `ScaleToZero.MayStartIff` | api/internal/scaletozero/waker.go:165-202 | from any state with mutual exclusion, some continuation starts the stack without a stop before it if and only if the flag is set and nobody is about to stop it, or a start or the record of a stop is under way |
| `ScaleToZero.IdleMayStartIff` | api/internal/scaletozero/waker.go:165-202 | with a free guard that is the case if and only if the flag is set |
| `ScaleToZero.FailedWakeRestartsIff` | api/internal/scaletozero/waker.go:172-183 | after a wake whose start or flag write failed, a start without a stop is possible if and only if the flag is still set |
| `ScaleToZero.FailedClear` | api/internal/scaletozero/waker.go:177-183 | a run from a sleeping app in which a failed flag write leaves it asleep with its stack started |
| `ScaleToZero.FailedClearStartsTwice` | api/internal/scaletozero/waker.go:172-183 | from every state in which a start or flag write is about to fail with the flag set, all that follows can be a second start without a stop |
| `ScaleToZero.Guard.Acquire` | api/internal/scaletozero/waker.go:94-102 | true exactly for the caller that put the app in flight |
| `ScaleToZero.Guard.Release` | api/internal/scaletozero/waker.go:104-108 | frees one app and no other |
| `ScaleToZero.Tick` | api/internal/scaletozero/sweeper.go:75-120 | one Suspend decided at this tick for every app idle past its window and the grace |
| `ScaleToZero.JudgedWereIdle` | api/internal/scaletozero/sweeper.go:75-129 | nothing with traffic inside its window is handed to Suspend |
| `ScaleToZero.IdleHandedOnce` | api/internal/scaletozero/sweeper.go:75-129 | every app whose last request, or else last update, is older than its own idle minutes, or else the default, and the grace is handed to Suspend exactly once, with the last traffic seen, and every other app not at all |
| `WorkerPool.PoolConserves` | api/internal/deploy/worker.go:159-226 | for distinct ids and any interleaving: accepted is queued plus in process plus finished, nothing is handed out twice, first in first out, within capacity; the pool keeps its clamped size through panics |
| `WorkerPool.InflightIsRunning` | api/internal/deploy/worker.go:178-199 | the in-flight keys are exactly the deploys between registration and deregistration |
| `WorkerPool.CancelHitsItsOwn` | api/internal/deploy/worker.go:290-298 | a cancelled context belongs to a deploy somebody asked to cancel, however late the cancel fires |
| `WorkerPool.CancelReaches` | api/internal/deploy/worker.go:290-298 | and a cancel of a registered deploy that fires cancels the context it runs under |
| `WorkerPool.CancelMisses` | api/internal/deploy/worker.go:290-298 | while a deploy that is not registered is not cancelled |
| `WorkerPool.ClampConcurrency` | api/internal/deploy/worker.go:104-112 | the pool size in 1..8 that is closest to the setting |
| `WorkerPool.Worker.Enqueue` | api/internal/deploy/worker.go:275-283 | never blocks; refuses exactly when the queue is full |
| `WorkerPool.Worker.Register` | api/internal/deploy/worker.go:188-191 | registers a fresh context under the deploy's id |
| `WorkerPool.Worker.Deregister` | api/internal/deploy/worker.go:193-199 | the deferred cleanup removes that id only |
| `WorkerPool.Worker.CancelLookup` | api/internal/deploy/worker.go:290-298 | reports exactly whether the deploy is registered |
| `Tailer.TailIsExact` | api/internal/reqmetrics/tailer.go:21-74 | over any history of appends and drains of a file that is not replaced, with any failures: the handled lines are the lines of the file prefix ending at the offset, each once and in order, and the offset is a line boundary |
| `Tailer.FullDrainCatchesUp` | api/internal/reqmetrics/tailer.go:41-74 | a drain that reads to the end of file consumes the longest newline-terminated prefix it sees |
| `Tailer.ReplacementSeenIff` | api/internal/reqmetrics/tailer.go:52-57 | after the file is replaced one full drain hands over exactly the new lines if and only if the new file is shorter than the offset, nothing had been consumed, or there is no complete line |
| `Tailer.LinesUnique` | api/internal/reqmetrics/tailer.go:62-72 | bytes split into newline-terminated lines in one way only |
| `Tailer.LinesTile` | api/internal/reqmetrics/tailer.go:62-72 | the lines handed over tile the longest newline-terminated prefix |
| `Tailer.LinesEnd` | api/internal/reqmetrics/tailer.go:62-72 | each line ends with a line feed and holds no other |
| `Tailer.Tailer.Drain` | api/internal/reqmetrics/tailer.go:41-74 | one drain, with its failure and restart cases |
| `Tailer.ReadBytes` | api/internal/reqmetrics/tailer.go:62-64 | up to and including the next newline, or all that is left |
| `Collector.AccessesConserved` | api/internal/reqmetrics/collector.go:204-280 | over any run, for every service and ten seconds: pending, taken, stored and lost together have as many requests as lines whose host resolved to the service in that time, as many errors as those with a status from 500 up, and as many bytes as they sent |
| `Collector.CountsConserved` | api/internal/reqmetrics/collector.go:204-280 | nothing is lost while no write fails, and each line counts once or is skipped |
| `Collector.LogToBuckets` | api/internal/reqmetrics/collector.go:188-227 | end to end with the tailer: every complete line up to the offset is counted once or skipped |
| `Collector.Collector.Record` | api/internal/reqmetrics/collector.go:204-227 | the bucket of the service the host resolves to, case folded and port set aside, gains one request, an error from status 500 up, and the size, and no other bucket changes; an unknown host changes nothing |
| `Collector.Collector.HandleLine` | api/internal/reqmetrics/collector.go:188-200 | the same for a decoded line; undecodable lines and lines without a host change nothing |
| `Collector.Collector.RefreshHosts` | api/internal/reqmetrics/collector.go:229-262 | every host resolves to the last assigned domain, else to the last usable automatic host; a failed read keeps the old map |
| `Collector.RefreshedLeads` | api/internal/reqmetrics/collector.go:229-262 | a host leads to the last assigned domain row of its name, or else to the last automatic host of its name with an app and a service |
| `Collector.Collector.Take` | api/internal/reqmetrics/collector.go:264-275 | every bucket leaves in exactly one row, in any map order |
| `Collector.RequestStore.Upsert` | api/internal/store/request_metrics.go:29-55 | a batch that commits makes every key grow by what it says, one that does not changes nothing, and a lost reply to a commit is an error too |
| `Collector.BucketTime` | api/internal/reqmetrics/collector.go:216 | the start of the ten-second bucket that holds the time |
| `CrashLoop.TripsOnKept` | api/internal/crashloop/monitor.go:136-196 | whatever the order of times, the monitor trips at an event exactly when the service is not stopped and the longest end of its deaths that begins less than a window before every later one has at least Threshold deaths |
| `CrashLoop.TripsExactly` | api/internal/crashloop/monitor.go:136-196 | as long as at each death of the service the deaths in its window are the last that came in, the monitor trips at an event exactly when the service is not looping and has at least Threshold abnormal deaths since its last destroy or reset in (t - Window, t] |
| `CrashLoop.TripsOnDeaths` | api/internal/crashloop/monitor.go:136-196 | the same told by the events alone: a death is a die event of the service's containers with an exit code other than zero, an episode ends with a destroy or a reset |
| `CrashLoop.KillsOnRecord` | api/internal/crashloop/monitor.go:236-274 | an out-of-memory kill is on record, and not announced again, exactly until the episode ends |
| `CrashLoop.KeptIsWindowIff` | api/internal/crashloop/monitor.go:351-376 | what the monitor keeps at a death is its window if and only if, from the first death after the cutoff on, all lie in the window |
| `CrashLoop.OrderedInStep` | api/internal/crashloop/monitor.go:351-376 | deaths whose times do not go back meet that condition |
| `CrashLoop.OncePerEpisode` | api/internal/crashloop/monitor.go:174-189 | between two trips of a service some event clears it |
| `CrashLoop.WindowBounded` | api/internal/crashloop/monitor.go:351-376 | no stored window outgrows the threshold, in any order of events |
| `CrashLoop.MonitorAgrees` | api/internal/crashloop/monitor.go:136-196 | for deaths in any order the stored window is the longest end of the full history that begins less than a window before every later death |
| `CrashLoop.TrimmedIsWindowIff` | api/internal/crashloop/monitor.go:365-376 | trimming keeps exactly the half-open interval if and only if, from the first time after the cutoff on, all lie in it |
| `CrashLoop.TrimmedIsWindow` | api/internal/crashloop/monitor.go:365-376 | so on sorted times |
| `CrashLoop.OutOfOrderCounts` | api/internal/crashloop/monitor.go:365-376 | and not on an example in which times go back |
| `CrashLoop.Trim` | api/internal/crashloop/monitor.go:365-376 | the trimming loop |
| `CrashLoop.Monitor.Handle` | api/internal/crashloop/monitor.go:136-196 | one event: its effect on the three maps, when it trips and when it announces an out-of-memory kill |
| `CrashLoop.Monitor.MaybeHandleOOM` | api/internal/crashloop/monitor.go:236-274 | announced once per episode |
| `CrashLoop.Monitor.Reset` | api/internal/crashloop/monitor.go:306-313 | forgets one service |
| `CrashLoop.Monitor.ResetProject` | api/internal/crashloop/monitor.go:319-338 | the deletion loops over keys with the project's prefix |
| `CrashLoop.ResetProjectIsResets` | api/internal/crashloop/monitor.go:315-338 | for slash-free names it clears exactly the project's own services |
| `CrashLoop.SlugProjectNoSlash` | api/internal/crashloop/monitor.go:26 | a compose project made from a slug is slash-free |
| `Scheduler.NextOccurrenceLeast` | api/internal/jobs/scheduler.go:186-238 | nextOccurrence is a slot strictly after now and the least one: anchor plus k steps with k at least 1, or the wanted hour and weekday |
| `Scheduler.NextIsFirst` | api/internal/jobs/scheduler.go:186-238 | the first time after now at which the job runs, in plain terms: whole steps of its minutes, or of an hour, after its last run; or at its hour, or three o'clock, and on its day of the week counted from Sunday |
| `Scheduler.TargetIsDay` | api/internal/jobs/scheduler.go:225 | the weekday arithmetic with Go's remainder is the mathematical residue, for negative days too |
| `Scheduler.SlotsNeverRepeat` | api/internal/jobs/scheduler.go:67-175 | over every run of the loop with a nondecreasing clock, arbitrary wakes, completions and edits: no job has two runs in flight and the slots dispatched for a job strictly increase |
| `Scheduler.DueJobStarts` | api/internal/jobs/scheduler.go:125-129 | the overlap guard at dispatch never skips a job that was free when planned |
| `Scheduler.NotBeforeItsTime` | api/internal/jobs/scheduler.go:75-129 | nothing starts before its time, a running job is not planned, and every other job is planned for its next time |
| `Scheduler.FinishFrees` | api/internal/jobs/scheduler.go:171-175 | a run that ended frees its job and no other |
| `Scheduler.Plan` | api/internal/jobs/scheduler.go:75-103 | an item for exactly the jobs that are not running, and a wait that ends at the soonest slot, is never zero, and is five minutes without items |
| `Scheduler.Scheduler.MarkRunning` | api/internal/jobs/scheduler.go:161-169 | false exactly when the job is already running |
| `Scheduler.Scheduler.DispatchFirst` | api/internal/jobs/scheduler.go:112-118 | one turn of the dispatch loop |
| `Scheduler.Scheduler.ClearRunning` | api/internal/jobs/scheduler.go:171-175 | frees the job's slot and no other |
| `PromExport.PrinterAndParserAgree` | api/internal/promexport/promexport.go:87-149 | for every snapshot and any label text the scraped sum of vac_deploys_total, vac_requests_total or vac_request_errors_total is the exact sum of its samples, and the scanner refuses exactly the pages with a line that does not fit its buffer |
| `PromExport.RequestsScraped` | api/internal/promexport/promexport.go:130-143 | a scrape of vac_requests_total adds up the rows' requests |
| `PromExport.ErrorsScraped` | api/internal/promexport/promexport.go:134-143 | one of vac_request_errors_total their errors |
| `PromExport.DeploysScraped` | api/internal/promexport/promexport.go:118-123 | one of vac_deploys_total the deploy counts |
| `PromExport.PageOrder` | api/internal/promexport/promexport.go:87-149 | the fourteen families in their order |
| `PromExport.HostGauges` | api/internal/promexport/promexport.go:90-100 | the host's numbers under their names |
| `PromExport.CPUFamily` | api/internal/promexport/promexport.go:106-109 | per service and with its labels the processor share |
| `PromExport.MemFamily` | api/internal/promexport/promexport.go:110-113 | the memory |
| `PromExport.VolumeFamily` | api/internal/promexport/promexport.go:115-119 | per volume its size |
| `PromExport.DeployFamily` | api/internal/promexport/promexport.go:121-126 | per app, status and reason the deploys |
| `PromExport.RequestFamily` | api/internal/promexport/promexport.go:132-136 | per service its requests |
| `PromExport.ErrorFamily` | api/internal/promexport/promexport.go:136-140 | and its errors |
| `PromExport.EscapeReadsBack` | api/internal/promexport/promexport.go:204-212 | label escaping is undone by unescaping, whatever follows the closing quote |
| `PromExport.LabelsReadBack` | api/internal/promexport/promexport.go:180-198 | a printed label block reads back to its labels |
| `PromExport.Write` | api/internal/promexport/promexport.go:87-149 | the page is the families' lines in order |
| `PromExport.WriteSample` | api/internal/promexport/promexport.go:180-198 | one sample line |
| `PromExport.Meta` | api/internal/promexport/promexport.go:167-178 | the HELP and TYPE lines |
| `PromExport.EscapeText` | api/internal/promexport/promexport.go:204-221 | the early return for plain text is the replacement itself |
| `Scraper.SumCounter` | api/internal/reqmetrics/scraper.go:49-77 | the scan loop adds up line values until a line does not fit |
| `Scraper.SampleValue` | api/internal/reqmetrics/scraper.go:53-74 | a sample line is worth its last field for its own metric and nothing for any other, also for names that are prefixes of each other |
| `Scraper.CommentValue` | api/internal/reqmetrics/scraper.go:55-57 | comment lines are worth nothing |
| `Scraper.SumTextLine` | api/internal/reqmetrics/scraper.go:51-53 | one line at a time, refusing a line that with its newline exceeds the buffer |
| `S3Path.EncodeDecodes` | api/internal/backup/s3.go:384-396 | percent-decoding undoes encodeRFC3986 on every byte string (sections 2.1 and 2.3 of RFC 3986) |
| `S3Path.EncodedByteIs` | api/internal/backup/s3.go:384-396 | letters, digits and - . _ ~ stand for themselves, every other byte for a percent sign and two capital hex digits |
| `S3Path.EncodeTriplets` | api/internal/backup/s3.go:384-396 | its output is unreserved characters and %XX triplets only |
| `S3Path.EncodeKeepsIff` | api/internal/backup/s3.go:384-396 | it leaves a string alone exactly when nothing in it is reserved |
| `S3Path.EncodeRFC3986` | api/internal/backup/s3.go:384-396 | the builder loop |
| `S3Path.EncodeS3Path` | api/internal/backup/s3.go:374-380 | segment by segment is byte by byte with slashes kept |
| `S3Path.CanonicalURIPath` | api/internal/backup/s3.go:343-352 | the same on a URL path, and / for an empty one |
| `S3Path.SignedPathIsSentIff` | api/internal/backup/s3.go:94-97 | for a bucket without %, ? and #: the signed path is the path sent, whatever the object key, if and only if the bucket holds nothing that needs escaping |
| `S3Path.CanonicalQueryOfMultiset` | api/internal/backup/s3.go:355-371 | the canonical query depends only on the multiset of key/value pairs |
| `S3Path.CanonicalQuery` | api/internal/backup/s3.go:355-371 | the loops over sorted keys and sorted values render the sorted pairs, whatever order the map gives |
| `S3Path.CanonicalQueryReadsBack` | api/internal/backup/s3.go:355-371 | read back between ampersands and around equals signs and decoded, it gives the pairs of the query, each as often as it was there, ascending by key and then value |
| `S3Path.EncodedOrderIff` | api/internal/backup/s3.go:357-361 | raw key order is encoded key order on a pair of keys if and only if at their first difference no lower unreserved byte meets a higher reserved one |
| `S3Path.UnreservedOrderKept` | api/internal/backup/s3.go:357-361 | so the two agree on unreserved keys |
| `S3Path.RawOrderCanDiffer` | api/internal/backup/s3.go:357-361 | and differ on z against { |
| `AuditDiff.DiffEnv` | api/internal/auditdiff/auditdiff.go:144-240 | every key of the union has exactly one row, the row its two sides determine, in display order; the error cases |
| `AuditDiff.DiffUnique` | api/internal/auditdiff/auditdiff.go:331-360 | the two sides determine rows and order: map iteration does not show |
| `AuditDiff.RowTells` | api/internal/auditdiff/auditdiff.go:173-261 | which side a key is missing from; when its row is masked: without a box, for a secret on either side, or when a value does not open; and whether it changed: by plaintext when shown, and else by flags and sealed bytes |
| `AuditDiff.RowsInOrder` | api/internal/auditdiff/auditdiff.go:346-360 | what changed comes before what did not, each group by ascending name |
| `AuditDiff.SnapshotLast` | api/internal/auditdiff/auditdiff.go:153-160 | the snapshot's side holds the last entry for each key, and an entry that does not decode refuses it |
| `AuditDiff.CurrentLast` | api/internal/auditdiff/auditdiff.go:162-169 | so the current side |
| `AuditDiff.UnmaskedRowsReplay` | api/internal/auditdiff/auditdiff.go:173-236 | unmasked rows replayed on the decrypted before-set give the decrypted current set on those keys and leave every other key alone |
| `AuditDiff.SecretsDoNotShow` | api/internal/auditdiff/auditdiff.go:134-143 | two inputs that differ only in the sealed bytes of secret keys, with the same equality pattern across sides, and boxes that differ arbitrarily on secrets, give identical rows |
| `AuditDiff.BuildRow` | api/internal/auditdiff/auditdiff.go:174-235 | the branches of the loop body |
| `AuditDiff.UnionKeys` | api/internal/auditdiff/auditdiff.go:331-344 | every key of either side once |
| `AppSpec.ExportImports` | api/internal/appspec/convert.go:35-132 | importing an app's export gives back its columns, the compose override folded into the compose file, and the same collections as multisets with triggers in order |
| `AppSpec.ReExportIdempotentIff` | api/internal/appspec/convert.go:182-259 | import then export is idempotent on a valid spec if and only if its slug fits 63 characters and normalising each of its host names settles it |
| `AppSpec.ExportForgetsOrder` | api/internal/appspec/convert.go:26-30 | an export does not depend on the order in which rows are listed, when keys are unique |
| `AppSpec.ReExportForgetsOrder` | api/internal/appspec/convert.go:26-30 | nor does a re-export on the order of a valid spec's collections |
| `AppSpec.NormalizeTwiceIff` | api/internal/appspec/appspec.go:341-358 | normalizeHostname is idempotent on a name exactly when its result ends in neither a dot nor white space |
| `AppSpec.TwoDotsUnsettled` | api/internal/appspec/appspec.go:342 | two trailing dots are the example |
| `AppSpec.Validate` | api/internal/appspec/appspec.go:197-306 | accepts exactly the specs whose head, services, domains, triggers and environment satisfy the listed conditions, with unique names throughout |
| `Patterns.HeadAccepted` | api/internal/appspec/appspec.go:197-256 | the conditions on version, kind, name, slug, source and build, with the slug, address and branch held against the expressions themselves |
| `Patterns.SlugIff` | api/internal/appspec/appspec.go:42 | the slug check accepts exactly what its regular expression matches |
| `Patterns.GitURLIff` | api/internal/appspec/appspec.go:40 | so the check of git addresses |
| `Patterns.GitRefIff` | api/internal/appspec/appspec.go:41 | and of branch names |
| `Patterns.EnvKeyIff` | api/internal/appspec/appspec.go:316-334 | and of environment keys |
| `Patterns.BindingIff` | api/internal/dbprovision/provisioner.go:30 | and of binding names |
| `Patterns.HostAccepted` | api/internal/appspec/appspec.go:341-358 | a host name needs a dot, at most 253 bytes, and none of ten characters |
| `Patterns.ColumnsImported` | api/internal/appspec/convert.go:182-225 | the columns an import stores, with main and compose.yaml where nothing is given |
| `Patterns.BuildImported` | api/internal/appspec/convert.go:182-205 | the build configuration it stores, field by field |
| `Patterns.RowsImported` | api/internal/appspec/convert.go:226-259 | the rows it stores |
| `Patterns.ServicesExported` | api/internal/appspec/convert.go:64-73 | services are exported by ascending name, and likewise domains and keys (`Patterns.DomainsExported`, `Patterns.EnvExported`) |
| `AppSpec.ToApp` | api/internal/appspec/convert.go:182-259 | the imported rows of a valid spec, and an error otherwise |
| `AppSpec.FromApp` | api/internal/appspec/convert.go:35-96 | the exported spec with its collections sorted |
| `AppSpec.BuildRoundTrip` | api/internal/appspec/convert.go:98-132 | a build block of any of the five kinds survives export and import |
| `AppSpec.UnsettledMoves` | api/internal/appspec/appspec.go:341-358 | a host name that does not settle changes on the next re-export |

## Left out

- Database reads: each route operation reads its rows as one snapshot, and a failed read of the app, its domains or its services is one failure. In `RouteLock` rows may change between the parts of an operation, not inside one.
- Uploaded certificates and the domain status engine: the route table does not depend on them. A failed certificate push is a failure of the operation.
- `maintenance.Render` and `url.QueryEscape`: the rendered page and the escaped guard token are fields of the rows and of the configuration.
- RouteSerial.LockedRunsAreSerial: gives the table part by part for runs in which calls arrive and reads succeed. Runs with failures are serial call by call (`RouteTrace.FailuresStaySerial`).
- Several routes with one @id: Caddy is taken to address the first in table order. `Duplicates.DuplicatesOutlast` and `LostDelete.LostDeleteLeavesOld` say which copy is served under that choice.
- Caddy's own matching: a request is served by the first route of its host, and a proxied authentication subrequest succeeds exactly for a request that is logged in.
- ScaleToZero: one app at a time; statuses of services and route pushes are steps without an effect on the protocol, since the route effects are the reconciler's. `ScaleToZero.Tick` is given the apps whose last request could be read; the tick skips the others.
- WorkerPool: shutdown, the boot sweep, the reaper and the deploy timeout, which act on rows and contexts outside the pool. Settling the row of a panicked deploy is a state a loop passes through.
- WorkerPool.PoolConserves: takes deploy ids as distinct, as row ids are.
- Tailer: bytes are read in the order in which they were written; a file that shrinks while it is being read is one that the next drain sees.
- Collector: the JSON decoder's answer is an input; the observer hook is left out, as it does not touch the buckets.
- Time zones and daylight saving: `Scheduler` works in a fixed-offset calendar with unbounded integers for durations.
- Scheduler.SlotsNeverRepeat: is about runs the scheduler starts; "run now" calls the engine without the in-flight set.
- Scheduler: no liveness is claimed for an interval job that never ran, because its anchor is the current time at every round.
- CrashLoop: what happens after the decision to trip or to notify (stop, row updates, log lines) is not modelled.
- PromExport: floating-point samples are their printed text, and HELP sentences are a parameter; labels are valid UTF-8.
- Scraper.SumCounter: reads integer numerals exactly instead of floating-point numbers.
- S3Path: signing, hashing, header canonicalisation and transfers; bytes are characters below 256.
- AuditDiff: the application and base-domain diffs, which compare field by field; base64 and JSON decoding are inputs.
- AppSpec: JSON and YAML encoding, and the store's handling of unassigned and service-less redirect domains, which are stored without an app id and so are not listed by a later export.
- AppSpec.Validate: reports that a spec is refused, not which message is returned.
- Case folding: letters whose lower case is not ASCII stay as they are. Slugs do not depend on them, and comparing host names is exact when either side is ASCII; a stored name with such letters is not folded further.
- Small facts that follow from one definition and have no row: the next deploy after a panic and a repeated id in the pool (`WorkerPool`), what a failed write drops (`Collector.FailedWriteLoses`), distinct counter names (`PromExport.CounterNameApart`), single rows of a diff (`AuditDiff.UnmaskedRow`, `AuditDiff.SecretsMasked`), and automatic ids of unequal lengths (`Names.AutoRouteIDNeedsEqualLengths`).
- Docker, git, HTTP, SMTP, DNS, TLS, the web interface and notifications.
