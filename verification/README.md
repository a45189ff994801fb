# Verified model of the go-backend-helpers protocols

This project models the stateful parts of the go-backend-helpers library in Dafny and proves what they
are for. Each file models one component; class methods follow the Go methods step by step, are tied to
functions on values, and the theorems are lemmas about those functions. `dafny verify dfyconfig.toml`
checks everything.

| file | component | main results |
|---|---|---|
| TenancyManager.dfy, TenancyConvergence.dfy, TenancyFaults.dfy | in-memory tenancy indexes fed by notifications | what every operation writes; over every interleaving of administration, handler and listing: exactly when the indexes mirror the table, when a path is served that no tenancy has, and when a handle is lost |
| ResourceTree.dfy | mutable tree of API resources with cached paths | cached paths equal the folds along the chain and tell it; fast path equals the recursive one; chain cloning |
| BackgroundWorker.dfy | periodic jobs and stop protocol of a background worker | one job for each timer until `Stop`; exactly when no job follows a served `Stop`; termination; exactly when a waiting `Stop` is served |
| SmsConfirmation.dfy | confirmation by SMS code | the token of a response works, and only what was sent is confirmed; exactly when the lineage of a code is kept; spacing of messages |
| SessionTokens.dfy | sessions, access and refresh tokens | tokens put out are admitted later, for their tenancy and user; a session dominates its tokens; invalidation is final |
| AccessControl.dfy | access check and search for a rule | the nested loops find the lexicographically first rule, and it decides |
| AuthSchema.dfy | AND/OR schemas of authentication handlers | declarative meaning; splicing; configurations are stored as written; termination on shared handler objects |
| Filters.dfy | filters, queries and the filter parser | exactly which filters survive printing and parsing |
| SmsRouting.dfy | choice of an SMS provider | longest prefix, earliest configured |
| CallTrace.dfy | call stack with first-error capture | the reported error is the first one in the order of exits since the errors were last cleared |
| Pools.dfy | pools, services and bindings | relational integrity over every run; what every operation writes; loading loses no binding |
| Prelude.dfy | `Option` and `Result` | |

Input, output, clocks, randomness and calls into libraries are parameters: an environment value of a
request says what the database, the cache, the encryption and the clock answered. Clock readings are
integers, databases are maps, and keyed checksums are an arbitrary function.

## What the code does differently from what one expects

These are facts about the code that the proofs brought out; each is a lemma or is visible in a function.

- A tenancy is created inactive whatever its data says; unloading deletes the path entry whoever owns it;
  loading an identifier that is loaded already leaks the old handle, and it is the only way to lose one.
- The server handles notifications before and while it loads its initial listing. A tenancy can then be
  loaded a second time: its old handle leaks, and if its path differs the old path stays in the index until
  a tenancy is loaded under it or unloaded from it. A row of the listing that is no longer current, and
  whose notification was handled before it is loaded, can bring a deleted tenancy back.
- `ChangePoolOrDb` compares the raw argument with the identifier of the old pool, so that giving the old
  pool by name publishes a deletion before the change. Convergence holds nevertheless.
- The cached service path starts at the nearest service and the recursive one at the topmost: they agree
  exactly when there is at most one service on the chain. `SetId` with a non-empty value rebuilds paths
  even when asked not to.
- A `Stop` called between the two stores at the start of a run can be lost; a run that stops after its
  first job leaves a token in the channel, which makes a second run unsafe.
- Errors of removing an SMS token from the cache are ignored: after a failed removal a code confirms again,
  and after a wrong guess the old try count can still be used. The lineage of a code depends on exactly the
  removals that follow a comparison.
- Additions look for conflicts with the customer, pool and path as they were typed; what they miss is left
  to the unique indexes.
- The checksum of a request to be confirmed runs over user, method, path and content without separators:
  it does not tell where one ends and the next begins.
- The delay between two SMS codes is kept only if the token was stored and encrypted and the delay was
  stored; otherwise the next request sends again at once.
- A token can outlive its session by the time that passes inside one request, and by more only when an
  access token is put out while renewal is switched off or the store fails. Two refusing branches of the
  token check return no error and only set a code (`Refused` with `error` false).
- A session that is not found is taken for an empty, invalid one. Asking for new tokens does not check
  that the session is valid.
- An "or" schema that contains only empty alternatives fails, while an empty schema passes.
- An empty list in a filter keeps its JSON name; an interval without ends disappears; a value between two
  columns is converted for both but only the conversion for the first is kept, and for alternatives only
  the one for the last.
- Updating a pool or service with its own current name is refused as a conflict; deleting or unbinding by
  an unknown name succeeds without effect.

## Model

| member | source | states |
|---|---|---|
| TenancyCache.UnloadKeeps | pkg/multitenancy/tenancy_manager/tenancy_manager.go:192-201 | unloading closes the one handle of the tenancy and keeps handles, both indexes and path ownership consistent |
| TenancyCache.UnloadedExactly | pkg/multitenancy/tenancy_manager/tenancy_manager.go:192-201 | unloading removes the entry of the identifier and the entry of its path, and no other |
| TenancyCache.LoadKeepsExactly | pkg/multitenancy/tenancy_manager/tenancy_manager.go:203-235 | loading keeps them consistent if and only if it does not, with a working connection to an active pool, load an identifier that is loaded already |
| TenancyCache.LoadedExactly | pkg/multitenancy/tenancy_manager/tenancy_manager.go:203-235 | each failure of loading has exactly this cause; a loaded tenancy is found under its identifier and its path, and nothing else changes |
| TenancyCache.CurrentIsLoaded | pkg/multitenancy/tenancy_manager/tenancy_manager.go:237-270 | the current row is loaded, and an unknown identifier fails |
| TenancyCache.NotifyKeeps | pkg/multitenancy/tenancy_manager/tenancy_manager.go:26-40 | handling any notification with any table and any failure keeps them consistent |
| TenancyCache.LoadAllKeepsExactly | pkg/multitenancy/tenancy_manager/tenancy_manager.go:446-481 | loading a listing, also one that stops at an error, keeps them consistent if and only if no row that is reached and loaded is loaded already; otherwise a handle is lost |
| TenancyCache.ListingSucceedsExactly | pkg/multitenancy/tenancy_manager/tenancy_manager.go:446-481 | a listing is loaded without an error if and only if no row fails |
| TenancyCache.ShutReleasesAll | pkg/multitenancy/tenancy_manager/tenancy_manager.go:147-155 | after closing, in any order, no handle is open and every handle ever made was closed exactly once |
| TenancyCache.HandlesConserved | pkg/multitenancy/tenancy_manager/tenancy_manager.go:134-235 | over every run of unloadings, loadings and closings, in any order and with any failures, the open handles are exactly those of loaded tenancies and each is closed once if and only if no loading met a loaded identifier; a handle lost otherwise is not even closed by closing the manager |
| TenancyCache.StepKeepsLeak | pkg/multitenancy/tenancy_manager/tenancy_manager.go:147-235 | no loading, unloading or closing recovers a lost handle |
| TenancyCache.TenancyManager.UnloadTenancy | pkg/multitenancy/tenancy_manager/tenancy_manager.go:192-201 | the new state of the manager: both entries removed, the handle closed |
| TenancyCache.TenancyManager.LoadTenancyFromData | pkg/multitenancy/tenancy_manager/tenancy_manager.go:203-235 | the new state and the result for each failure: customer, pool, inactive pool, connection, foreign database |
| TenancyCache.TenancyManager.LoadTenancy | pkg/multitenancy/tenancy_manager/tenancy_manager.go:237-270 | the current row is loaded, an unknown identifier changes nothing |
| TenancyCache.TenancyManager.Handle | pkg/multitenancy/tenancy_manager/tenancy_manager.go:26-40 | unload, then load from the current table unless the operation is a deletion |
| TenancyCache.TenancyManager.LoadTenancies | pkg/multitenancy/tenancy_manager/tenancy_manager.go:446-481 | rows are loaded in order up to the first error |
| TenancyCache.TenancyManager.Close | pkg/multitenancy/tenancy_manager/tenancy_manager.go:147-155 | every loaded handle is closed and both indexes are emptied |
| TenancyCache.TenancyManager.TenancyByPath | pkg/multitenancy/tenancy_manager/tenancy_manager.go:175-183 | the tenancy in the index under the path, or none |
| TenancyCache.TenancyManager.Connect | pkg/multitenancy/tenancy_manager/tenancy_base.go:174-185 | a new open handle |
| TenancyConvergence.AdministerIsStep | pkg/multitenancy/tenancy_manager/tenancy_controller.go:132-480 | every successful administrator operation changes one row and ends with a notification of that row to the pools concerned; a failing one changes nothing |
| TenancyConvergence.AdministerKeeps | pkg/multitenancy/tenancy_manager/tenancy_controller.go:199-480 | the ordering invariant over the queue survives every administrator operation |
| TenancyConvergence.WrittenExactly | pkg/multitenancy/tenancy_manager/tenancy_controller.go:132-480 | what every successful operation writes, column by column: the moved, changed or created row, the unchanged others, and which pools are told what in which order |
| TenancyConvergence.SetRefusedExactly | pkg/multitenancy/tenancy_manager/tenancy_controller.go:199-480 | the operations on one row fail for exactly these reasons, conflicts spelled out over the table, and then change nothing |
| TenancyConvergence.AddRefusedExactly | pkg/multitenancy/tenancy_manager/tenancy_controller.go:132-161 | an addition fails for exactly these reasons, with the conflicts of the data as it was typed |
| TenancyConvergence.MoveRefusedExactly | pkg/multitenancy/tenancy_manager/tenancy_controller.go:373-445 | a move fails for exactly these reasons |
| TenancyConvergence.FindPoolMeans | pkg/multitenancy/tenancy_manager/tenancy_manager.go:294-306 | an argument is taken for an identifier first and for a name second, and stands for at most one pool |
| TenancyConvergence.TableStaysUnique | pkg/multitenancy/tenancy_manager/tenancy_controller.go:132-480 | no operation gives two tenancies one path, or two tenancies of a customer one role |
| TenancyConvergence.HandlingIsNotify | pkg/multitenancy/tenancy_manager/tenancy_manager.go:26-40 | the three steps of the handler, with nothing in between, are the handling of one notification |
| TenancyConvergence.RowsAreTheListing | pkg/multitenancy/tenancy_manager/tenancy_manager.go:468-477 | the rows of the listing, with nothing in between, are loaded as the loop loads them |
| TenancyConvergence.InitialInv | pkg/multitenancy/tenancy_manager/tenancy_manager.go:112-134 | the invariant holds when the server has just subscribed, with nothing queued and nothing loaded |
| TenancyConvergence.DropKeeps | pkg/multitenancy/tenancy_manager/tenancy_manager.go:114-134 | notifications that arrive before the handler is installed can be dropped: the listing makes up for them |
| TenancyConvergence.TakeKeeps | pkg/multitenancy/tenancy_manager/tenancy_manager.go:192-201 | the ordering invariant survives unloading the tenancy of the next notification |
| TenancyConvergence.ReadKeeps | pkg/multitenancy/tenancy_manager/tenancy_manager.go:237-260 | it survives reading the row of that tenancy, which from then on waits to be loaded |
| TenancyConvergence.StoreKeeps | pkg/multitenancy/tenancy_manager/tenancy_manager.go:203-235 | it survives loading that row, however much the table, the queue and the listing have moved on |
| TenancyConvergence.ListingKeeps | pkg/multitenancy/tenancy_manager/tenancy_manager.go:459-471 | it survives reading the listing, whatever is loaded, queued or being handled |
| TenancyConvergence.RowKeeps | pkg/multitenancy/tenancy_manager/tenancy_manager.go:473-477 | it survives loading a row of the listing that is current or whose tenancy was not handled since the listing was read |
| TenancyConvergence.RunInv | pkg/multitenancy/tenancy_manager/tenancy_manager.go:96-145 | in every state of every interleaving of administration, handler and listing whose rows are loaded in time, the invariant holds |
| TenancyConvergence.DrainConverges | pkg/multitenancy/tenancy_manager/tenancy_manager.go:26-40 | from every state of the invariant after the listing, letting the handler go on is enough for the indexes to mirror the table, which it does not touch |
| TenancyFaults.FaultsExactly | pkg/multitenancy/tenancy_manager/tenancy_manager.go:96-235 | in every state of every run: an index entry disagrees with the table beyond repair, a loaded tenancy is hidden from its path, or a path is served for a tenancy that is not loaded any more, if and only if an event of the stated kind caused it and no later event touched it |
| TenancyFaults.Convergence | pkg/multitenancy/tenancy_manager/tenancy_manager.go:96-145 | in every run, whenever the listing is loaded, the queue empty and the handler idle: the index by identifier holds exactly the rows of the served pool and the index by path is its exact inverse if and only if no fault was caused and not cured since; the same without stray paths for the tenancies alone |
| TenancyFaults.ConvergenceInTime | pkg/multitenancy/tenancy_manager/tenancy_manager.go:96-145 | if every row of the listing was current when it was loaded, or its tenancy was not handled since it was read, then every served tenancy, and no other, is loaded with its row and found by its path, reloaded or not; the indexes are exact inverses if and only if no stray path was left behind |
| TenancyFaults.LookupExactly | pkg/multitenancy/tenancy_manager/tenancy_manager.go:175-183 | in these states the path of a served tenancy finds that tenancy with its current row; any other path finds something if and only if a reload left it behind and nothing has touched it since |
| TenancyFaults.HandlesExactly | pkg/multitenancy/tenancy_manager/tenancy_manager.go:96-235 | in every state of every run the open handles are exactly those of loaded tenancies if and only if no loaded tenancy was loaded again; otherwise a handle is lost |
| TenancyFaults.LoadedOnceConverges | pkg/multitenancy/tenancy_manager/tenancy_manager.go:96-145 | without a reload both hold: exact indexes and accounted handles |
| TenancyFaults.EarlyDeliveryBreaks | pkg/multitenancy/tenancy_manager/tenancy_manager.go:114-137 | a run in which a notification is handled before the listing: in the end an old path is still served and a handle is lost |
| TenancyFaults.HarmlessReload | pkg/multitenancy/tenancy_manager/tenancy_manager.go:114-137 | a run in which a reload loses a handle and the indexes converge |
| TenancyFaults.StaleRowRevives | pkg/multitenancy/tenancy_manager/tenancy_manager.go:468-477 | a deletion that is handled between reading and loading the listing brings the tenancy back |
| TenancyConvergence.TenancyController.PublishOp | pkg/multitenancy/tenancy_manager/tenancy_controller.go:120-130 | a publication reaches the server exactly if it is addressed to the served pool |
| TenancyConvergence.TenancyController.AddTenancy | pkg/multitenancy/tenancy_manager/tenancy_controller.go:132-161 | outcome, table, queue and the operation logged of an addition: customer and pool looked up, conflicts looked for with the data as typed, generated path and database name, the unique indexes |
| TenancyConvergence.TenancyController.SetTenancyPath | pkg/multitenancy/tenancy_manager/tenancy_controller.go:199-233 | outcome, table, queue and the operation logged, with the path conflicts |
| TenancyConvergence.TenancyController.SetTenancyRole | pkg/multitenancy/tenancy_manager/tenancy_controller.go:235-269 | outcome, table, queue and the operation logged, with the role conflict |
| TenancyConvergence.TenancyController.SetTenancyActive | pkg/multitenancy/tenancy_manager/tenancy_controller.go:271-329 | outcome, table, queue and the operation logged of activation and deactivation |
| TenancyConvergence.TenancyController.SetTenancyCustomer | pkg/multitenancy/tenancy_manager/tenancy_controller.go:331-371 | outcome, table, queue and the operation logged, with an unknown customer and the role conflict at the new one |
| TenancyConvergence.TenancyController.ChangeTenancyPoolOrDb | pkg/multitenancy/tenancy_manager/tenancy_controller.go:373-445 | outcome, table, the operation logged and the one or two publications of a move, with the failures of the trial connection |
| TenancyConvergence.TenancyController.DeleteTenancy | pkg/multitenancy/tenancy_manager/tenancy_controller.go:447-480 | outcome, table, queue and the operation logged of a deletion |
| ResourceTree.Resource.constructor | pkg/api/resource.go:92-108 | a new resource is a tree of its own whose cached values are right |
| ResourceTree.Resource.IsServicePart | pkg/api/resource.go:235-243 | the recursive read is true exactly if there is a service on the chain |
| ResourceTree.Resource.RebuildOwnPaths | pkg/api/resource.go:110-145 | the own step of a rebuild makes the resource agree with its parent and spoils only what is below |
| ResourceTree.Resource.RebuildPaths | pkg/api/resource.go:110-150 | after a rebuild everything below agrees with its parent and nothing that was right becomes wrong |
| ResourceTree.Resource.SetId | pkg/api/resource.go:212-220 | the identifier is set; everything below is right again if rebuilding is asked for or the value is not empty |
| ResourceTree.Resource.SetHasId | pkg/api/resource.go:226-229 | the flag is set and everything below is right again |
| ResourceTree.Resource.AddChild | pkg/api/resource.go:278-292 | the new forest after a root is hung below a resource outside its tree; rebuilding makes the moved part right, without it the rest stays right |
| ResourceTree.Resource.FillActualPaths | pkg/api/resource.go:432-447 | every resource of the chain gets its identifier from the map, and after the climb the whole tree is right |
| ResourceTree.Resource.ResetIds | pkg/api/resource.go:449-459 | every identifier of the chain is emptied, and after the climb the whole tree is right |
| ResourceTree.Resource.FilledPath | pkg/api/resource.go:404-447 | filling makes the cached full path equal the recursive one if the map covers the chain; the service paths agree if and only if there is at most one service |
| ResourceTree.FreshMeans | pkg/api/resource.go:110-150 | agreement with the parent along the chain gives the full paths, the service paths from the nearest service and the nearest tenancy |
| ResourceTree.SegmentsMean | pkg/api/resource.go:112-122 | what the segment of a resource consists of |
| ResourceTree.RouteTellsChain | pkg/api/resource.go:110-150 | resources with the same path prototype have the same types above them in the same order, with parameters in the same places |
| ResourceTree.SettledMeans | pkg/api/resource.go:110-150 | in a settled forest every cached value of every resource means what it should |
| ResourceTree.CoveredExactly | pkg/api/resource.go:404-447 | when a filled resource has the segment the recursive builder gives it: if and only if the map covers it |
| ResourceTree.BuildFolds | pkg/api/resource.go:404-430 | the recursive builder folds the whole chain |
| ResourceTree.BuildServiceFolds | pkg/api/resource.go:404-430 | with the service flag it folds from the topmost service |
| ResourceTree.FastPathIsRecursive | pkg/api/resource.go:404-447 | the cached path is the recursive path; for service paths if and only if there is at most one service on the chain |
| ResourceTree.Resource.Clone | pkg/api/resource.go:461-474 | a separate resource of the same type and configuration with right cached values |
| ResourceTree.Resource.CloneChain | pkg/api/resource.go:476-492 | a chain of new objects with the same types and configurations, all right, and nothing of the original is modified |
| ResourceTree.CopiesMean | pkg/api/resource.go:476-492 | copied chains have the same full paths |
| ResourceTree.Resource.NamedSubresource | pkg/api/common_operations.go:21-28 | a new resource with the given type and identifier below a copy of the chain whose last resource got the given identifier; the original is not modified |
| BackgroundWorker.StepKeeps | pkg/background_worker/background_worker.go:76-130 | the invariant over starter, worker, timer and stopper steps |
| BackgroundWorker.NoJobAfterStop | pkg/background_worker/background_worker.go:76-130 | in one run, once `Stop` has got its token no job is executing and none ever starts |
| BackgroundWorker.PeriodicJobs | pkg/background_worker/background_worker.go:74-113 | in every run in which `Stop` is not called the jobs are the first one and one for each timer that fired; the worker never ends and is never stuck |
| BackgroundWorker.JobsExactly | pkg/background_worker/background_worker.go:82-106 | over every run the jobs are those started by the launch and by timers that found the flag unset, and each start leads to an executing job |
| BackgroundWorker.BroadcastIsPrompt | pkg/background_worker/background_worker.go:115-126 | a worker that waits when the broadcast comes serves `Stop` in a run without another timer |
| BackgroundWorker.CalledStop | pkg/background_worker/background_worker.go:115-121 | a `Stop` that finds no run returns at once without any effect |
| BackgroundWorker.ChannelHoldsOne | pkg/background_worker/background_worker.go:74-74 | the channel never holds more than one token |
| BackgroundWorker.WaitingIsFed | pkg/background_worker/background_worker.go:118-130 | while `Stop` waits, a token is there or the worker has yet to send one |
| BackgroundWorker.StopTerminates | pkg/background_worker/background_worker.go:76-130 | once the flag is set for good every continuation is bounded and ends with the worker finished and `Stop` returned, also if the broadcast is missed |
| BackgroundWorker.HeardProgresses | pkg/background_worker/background_worker.go:76-130 | every step then decreases a measure |
| BackgroundWorker.HeardNeverStuck | pkg/background_worker/background_worker.go:76-130 | there is no deadlock before both have ended |
| BackgroundWorker.LateStopIsHeard | pkg/background_worker/background_worker.go:76-130 | a `Stop` called after `RunInBackground` returned is never turned away, and from its first store on the flag is set for good |
| BackgroundWorker.EarlyStopCanBeLost | pkg/background_worker/background_worker.go:78-79 | a run in which a `Stop` between the two stores loses flag and broadcast |
| BackgroundWorker.EndingIsShort | pkg/background_worker/background_worker.go:76-130 | from a decided waiting state every run is bounded, and one that cannot go on has ended with `Stop` served |
| BackgroundWorker.UndecidedGoesOn | pkg/background_worker/background_worker.go:76-130 | from an undecided waiting state there are runs of every length that end waiting and undecided |
| BackgroundWorker.ServedExactly | pkg/background_worker/background_worker.go:76-130 | a waiting `Stop` is in a decided state if and only if every run from it is bounded; those that cannot go on have then ended with it served |
| BackgroundWorker.LeftoverToken | pkg/background_worker/background_worker.go:84-114 | the tokens a finished run leaves are its sends less the one `Stop` took |
| BackgroundWorker.FirstRunLeavesToken | pkg/background_worker/background_worker.go:84-130 | a first run, stopped during its first job, that ends in good order and leaves a token |
| BackgroundWorker.SafeExactly | pkg/background_worker/background_worker.go:76-130 | after a served `Stop` no job executes or starts, in all runs from a state, if and only if the run found the channel empty |
| BackgroundWorker.SecondRunIsUnsafe | pkg/background_worker/background_worker.go:84-130 | a first run after which the next one is not safe |
| SmsConfirmation.RunKeepsLineages | pkg/auth/auth_methods/auth_sms/auth_sms.go:145-357 | tries, guesses and sendings stay in step over every run in which the entry is removed whenever a code is compared |
| SmsConfirmation.CodeLineage | pkg/auth/auth_methods/auth_sms/auth_sms.go:193-255 | throughout a run every sent code has at most one cache entry, its try count is one plus the wrong guesses, at most `MAX_TRIES`-1 guesses are compared with it, at most one is right, and that one repeats code and checksum of the sending, if and only if the entry is removed whenever a code is compared |
| SmsConfirmation.FailedRemovalConfirmsAgain | pkg/auth/auth_methods/auth_sms/auth_sms.go:247-255 | a confirmed request that is repeated is confirmed again if and only if the removal, whose error is ignored, failed |
| SmsConfirmation.FailedRemovalForks | pkg/auth/auth_methods/auth_sms/auth_sms.go:226-241 | a wrong guess leaves the old entry, with its old try count, beside the new one if and only if the removal failed |
| SmsConfirmation.ConfirmedMeans | pkg/auth/auth_methods/auth_sms/auth_sms.go:164-256 | in every state a request is confirmed if and only if it shows a live token with tries left, the same checksum and the same code; its entry is then gone if and only if the removal succeeded |
| SmsConfirmation.ConfirmedOnce | pkg/auth/auth_methods/auth_sms/auth_sms.go:164-256 | after such a run a confirmed code had tries left, and no entry carries it any more if and only if this removal succeeds too |
| SmsConfirmation.ReturnedTokenWorks | pkg/auth/auth_methods/auth_sms/auth_sms.go:145-400 | whatever others do in the meantime, the same request with the token of the response and the right code is confirmed until the token expires, unless the tries are used up; with a wrong code it gets another token |
| SmsConfirmation.TokenIsGiven | pkg/auth/auth_methods/auth_sms/auth_sms.go:226-241 | a response carries a token if and only if a code was sent or compared in vain, and it could be saved |
| SmsConfirmation.SentExactly | pkg/auth/auth_methods/auth_sms/auth_sms.go:258-330 | when a code is sent, and that it goes to the phone of the user |
| SmsConfirmation.ConfirmedWasSent | pkg/auth/auth_methods/auth_sms/auth_sms.go:145-363 | in every run a confirmed request repeats the code sent for an earlier one and its checksum; without collisions of the checksum it is the same user asking for the same |
| SmsConfirmation.AnsweredWithCode | pkg/auth/auth_methods/auth_sms/auth_sms.go:164-224 | each refusal of a request with a code has exactly this cause |
| SmsConfirmation.EffectWithCode | pkg/auth/auth_methods/auth_sms/auth_sms.go:205-255 | a refused request leaves the cache alone, but too many tries end the entry; a confirmation ends the delay of the user |
| SmsConfirmation.AnsweredWithoutCode | pkg/auth/auth_methods/auth_sms/auth_sms.go:258-350 | each refusal of a request without a code has exactly this cause, and the delay reported is what is left of it, rounded up to seconds |
| SmsConfirmation.EffectWithoutCode | pkg/auth/auth_methods/auth_sms/auth_sms.go:258-350 | nothing is stored unless a code is sent, and then only its token and the delay of its user |
| SmsConfirmation.UnknownUserIsRefused | pkg/auth/auth_methods/auth_sms/auth_sms.go:158-163 | without a user nothing happens |
| SmsConfirmation.RunKeepsSpacing | pkg/auth/auth_methods/auth_sms/auth_sms.go:250-350 | an unconfirmed saved sending blocks its user until its delay is over |
| SmsConfirmation.SmsSpacing | pkg/auth/auth_methods/auth_sms/auth_sms.go:250-350 | two codes for one user are at least the delay apart, unless the user confirmed one in between or the first could not be saved |
| SmsConfirmation.UnsavedSendingsAreNotSpaced | pkg/auth/auth_methods/auth_sms/auth_sms.go:334-350 | after a sending that could not be saved, the same request sends again at once |
| SmsConfirmation.ReportedDelay | pkg/auth/auth_methods/auth_sms/auth_sms.go:269-285 | a reported delay lies between zero and the configured one |
| SmsConfirmation.AuthSms.HandleRequest | pkg/auth/auth_methods/auth_sms/auth_sms.go:145-357 | the new cache and the response, branch by branch |
| SmsConfirmation.AuthSms.HandleCode | pkg/auth/auth_methods/auth_sms/auth_sms.go:169-256 | the branches of a request with a code |
| SmsConfirmation.AuthSms.HandleNoCode | pkg/auth/auth_methods/auth_sms/auth_sms.go:258-356 | the branches of a request without a code |
| SmsConfirmation.AuthSms.UnsetToken | pkg/auth/auth_methods/auth_sms/auth_sms.go:208-212 | the entry is gone unless the removal failed |
| SmsConfirmation.AuthSms.SetSmsToken | pkg/auth/auth_methods/auth_sms/auth_sms.go:379-400 | the cache entry first, the response token second |
| SessionTokens.SessionsDominateTokens | pkg/auth/auth_methods/auth_token/auth_token.go:214-303 | with automatic renewal and access tokens living no longer than refresh tokens, over every run expirations of sessions never decrease and every token ever put out expires no later than its session, up to the time spent inside one request |
| SessionTokens.SpreadIsReached | pkg/auth/auth_methods/auth_token/auth_token.go:260-303 | that allowance is needed: for every spread some token outlives its session by just that much |
| SessionTokens.OutlivesExactly | pkg/auth/auth_methods/auth_token/auth_token.go:208-235 | with one clock reading, when a check puts out a token that outlives the session: if and only if an access token lives past the session and the renewal is off or fails |
| SessionTokens.TokenExpiryDecides | pkg/auth/auth_methods/auth_token/auth_token.go:140-195 | a token that was put out is admitted if and only if it has not expired and its user is found and not blocked, as long as its session is valid |
| SessionTokens.IssuedTokenReturns | pkg/auth/auth_methods/auth_token/auth_token.go:104-303 | a token put out for a request is admitted by every later check in the same tenancy, whatever happens in between, if and only if it has not expired and the user its session was opened for is found and not blocked, unless the session was ended |
| SessionTokens.NewIssues | pkg/auth/auth_methods/auth_token/auth_new_token.go:36-105 | the tokens that follow another method name the user, the session and the tenancy of the request; an accepted request answers with an access and a refresh token with these expirations |
| SessionTokens.NewAcceptedExactly | pkg/auth/auth_methods/auth_token/auth_new_token.go:36-105 | when this succeeds, in which session, and with which expiration it is left |
| SessionTokens.NewRefusedExactly | pkg/auth/auth_methods/auth_token/auth_new_token.go:36-105 | each refusal has exactly this cause |
| SessionTokens.CheckIssues | pkg/auth/auth_methods/auth_token/auth_token.go:196-250 | what an accepted check puts out under which name, what the tokens say, and how it leaves the session; on the logout path nothing is put out and the session ends |
| SessionTokens.CheckAcceptedExactly | pkg/auth/auth_methods/auth_token/auth_token.go:196-250 | when a check with an admitted token is accepted |
| SessionTokens.AdmittedExactly | pkg/auth/auth_methods/auth_token/auth_token.go:120-195 | a shown token is admitted if and only if it is readable, in time, of this tenancy and of a valid session in time whose user is found by its login and not blocked |
| SessionTokens.RefusedExactly | pkg/auth/auth_methods/auth_token/auth_token.go:120-195 | each code of a refusal has exactly this cause, and the refusals without an error are these |
| SessionTokens.InvalidationIsExact | pkg/auth/auth_session/session_controller.go:164-197 | logout and the three invalidations make exactly the covered sessions invalid and change nothing else |
| SessionTokens.InvalidationIsFinal | pkg/auth/auth_session/session_controller.go:164-197 | after an invalidation no request with one of the tokens of the session is ever accepted or has an effect, whatever happens in between |
| SessionTokens.NeverRevived | pkg/auth/auth_session/session_controller.go:61-162 | no request makes an invalid session valid or loses a session |
| SessionTokens.SessionController.CreateSession | pkg/auth/auth_session/session_controller.go:61-78 | a valid session of the user under a new primary key |
| SessionTokens.SessionController.Find | pkg/auth/auth_session/session_controller.go:80-92 | the stored session, or the empty one when there is none |
| SessionTokens.SessionController.UpdateSessionExpiration | pkg/auth/auth_session/session_controller.go:152-162 | only the expiration of that session changes |
| SessionTokens.SessionController.InvalidateSession | pkg/auth/auth_session/session_controller.go:164-175 | the session of that user and identifier becomes invalid |
| SessionTokens.SessionController.InvalidateUserSessions | pkg/auth/auth_session/session_controller.go:177-186 | all sessions of the user become invalid |
| SessionTokens.SessionController.InvalidateAllSessions | pkg/auth/auth_session/session_controller.go:188-197 | all sessions become invalid |
| SessionTokens.AuthTokenHandler.PutToken | pkg/auth/auth_methods/auth_token/auth_token.go:282-298 | the token put into the response |
| SessionTokens.AuthTokenHandler.PutRefreshToken | pkg/auth/auth_methods/auth_token/auth_token.go:260-280 | the expiration is stored before the token is put out |
| SessionTokens.AuthTokenHandler.Check | pkg/auth/auth_methods/auth_token/auth_token.go:104-251 | sessions, context and outcome of a token check, branch by branch |
| SessionTokens.AuthTokenHandler.Follow | pkg/auth/auth_methods/auth_token/auth_token.go:214-247 | new tokens or logout |
| SessionTokens.AuthTokenHandler.New | pkg/auth/auth_methods/auth_token/auth_new_token.go:36-105 | sessions, context and outcome when tokens follow another method |
| AccessControl.SearchIsLexicographic | pkg/access_control/access_control.go:65-97 | the search answers with the first position that answers at all in the order path, level, tag, role, and misses if and only if none answers |
| AccessControl.LaterRulesDoNotMatter | pkg/access_control/access_control.go:65-97 | changing rules after the deciding one changes nothing |
| AccessControl.EmptyTagOnce | pkg/access_control/access_control.go:69-72 | asking with the empty tag once for each path gives the same answer |
| AccessControl.Controller.CheckAccess | pkg/access_control/access_control.go:34-101 | owner access, errors of tags and rules, the deciding rule, the default |
| AccessControl.OwnerIsAdmitted | pkg/access_control/access_control.go:39-46 | an owner is admitted with any of the rights asked for |
| AccessControl.RuleDecides | pkg/access_control/access_control.go:67-100 | for anybody else the first position that answers decides: the rule found grants one of the rights asked for or refuses, or its error is returned |
| AccessControl.DefaultDecides | pkg/access_control/access_control.go:48-50 | where no position answers the default access decides |
| AccessControl.FailureDecides | pkg/access_control/access_control.go:52-65 | if tags cannot be read, the error of the last such path is returned |
| AccessControl.TagsAreReadOrFail | pkg/access_control/access_control.go:52-65 | one of these cases applies |
| AccessControl.AskMeans | pkg/access_control/access_control.go:71-81 | which question a position asks: its path, its own tag or the empty one after the last, and its role |
| AccessControl.Controller.ResourceTags | pkg/access_control/access_control.go:53-63 | the tags of all paths or the error of the last failing path |
| AccessControl.Controller.LookForRule | pkg/access_control/access_control.go:65-97 | the loops over paths and levels give the first hit in the order of the probes |
| AccessControl.Controller.LookAtPath | pkg/access_control/access_control.go:65-97 | the loop over the levels of one path yields the first hit of these levels |
| AccessControl.Controller.LookAtLevel | pkg/access_control/access_control.go:70-86 | the loops over tags and roles give the first hit of one level |
| AuthSchema.OrMeans | pkg/auth/auth_schema.go:131-153 | "or": the first real handler that finds its section decides and nothing is called after it; otherwise all are called and the schema fails unless empty |
| AuthSchema.AndMeans | pkg/auth/auth_schema.go:131-153 | "and": succeeds if and only if empty, or no real handler errs and some finds its section; else the first error decides |
| AuthSchema.SplicePreserves | pkg/auth/auth_schema.go:131-153 | inlining a nested "or" keeps calls and result for all behaviours of the leaves if and only if something is left to try |
| AuthSchema.NothingFound | pkg/auth/auth_schema.go:148-152 | alternatives that find nothing fail for want of a section |
| AuthSchema.AcceptedExactly | pkg/auth/auth_manager.go:101-122 | a configuration is accepted if and only if every schema refers only to earlier names; the first handler of a name stays |
| AuthSchema.NoCycles | pkg/auth/auth_manager.go:101-122 | no chain of references between handler objects leads back to its start |
| AuthSchema.StoredAsConfigured | pkg/auth/auth_manager.go:111-121 | an accepted configuration leaves under each new name a schema with the configured operator and the handlers of the configured names, in order |
| AuthSchema.ResolvedInOrder | pkg/auth/auth_manager.go:111-121 | names are resolved in order, and the error names the first unknown one |
| AuthSchema.Handle | pkg/auth/auth_schema.go:118-154 | handling on shared objects terminates and computes the meaning of the tree the object unfolds to |
| AuthSchema.AuthHandler.Append | pkg/auth/auth_schema.go:61-63 | the handler and its tree are appended |
| AuthSchema.AuthManager.Enter | pkg/auth/auth_manager.go:54-58 | a handler enters a store only under a free name |
| AuthSchema.AuthManager.AddMethod | pkg/auth/auth_manager.go:82-99 | a method enters the stores |
| AuthSchema.AuthManager.LoadHandlers | pkg/auth/auth_schema.go:87-100 | all names are resolved in order, or the first unknown one is reported |
| AuthSchema.AuthManager.InitOne | pkg/auth/auth_manager.go:111-121 | a schema enters the stores only after its names are resolved |
| AuthSchema.AuthManager.Init | pkg/auth/auth_manager.go:101-122 | the stores after all schemas, or the unknown name that stopped the initialisation |
| Filters.ParseInvertsPrint | pkg/utils/conversions.go:127-136 | parsing a printed 64-bit integer gives it back |
| Filters.IntegerTexts | pkg/utils/conversions.go:127-136 | which texts are read as which numbers: signs, the empty text and the bounds |
| Filters.DigitsAreDecimal | pkg/utils/conversions.go:127-136 | digits are read as decimals |
| Filters.PrintIsCanonical | pkg/utils/conversions.go:127-136 | printed numbers have no leading zeros and a sign only below zero |
| Filters.ValueReturnsExactly | pkg/db/db_gorm/filter_parser.go:61-106 | a value comes back under the database name if and only if it fits a registered, indexed column and the validator accepts it |
| Filters.ListReturnsExactly | pkg/db/db_gorm/filter_parser.go:138-151 | when a list comes back, including the empty one |
| Filters.IntervalReturnsExactly | pkg/db/db_gorm/filter_parser.go:182-220 | an interval comes back if and only if it has an end and its ends fit |
| Filters.IntervalDropped | pkg/db/db_gorm/filter_parser.go:186-219 | an interval without ends is dropped without an error; one with an unreadable end fails |
| Filters.ValueRefused | pkg/db/db_gorm/filter_parser.go:61-106 | each refusal of a value has exactly this cause |
| Filters.BetweenReturnsExactly | pkg/db/db_gorm/filter_parser.go:222-237 | a between entry comes back if and only if its value fits the first column and can be parsed for the second |
| Filters.OrReturnsExactly | pkg/db/db_gorm/filter_parser.go:239-258 | alternatives come back if and only if the value can be parsed for every name and fits the last column |
| Filters.SuitableParses | pkg/db/db_gorm/filter_parser.go:108-262 | a suitable filter, written as a query, is parsed without an error |
| Filters.RoundTripExactly | pkg/db/db_gorm/filter_parser.go:108-262 | if the query of a filter can be parsed: whatever the order of entries, the result is the filter with every JSON name replaced by the database name if and only if it is suitable, that is, columns are registered and indexed, entries are not empty, values fit their columns, and entries about one column agree |
| Filters.ToQuery | pkg/db/filter.go:132-205 | the query with every value printed |
| Filters.FilterParser.ParseList | pkg/db/db_gorm/filter_parser.go:142-151 | the values of a list and the name it is kept under |
| Filters.FilterParser.ParseInterval | pkg/db/db_gorm/filter_parser.go:186-219 | the interval, its absence, or an error |
| Filters.FilterParser.Parse | pkg/db/db_gorm/filter_parser.go:108-262 | succeeds if and only if every entry can be parsed, and then gathers all entries |
| Filters.FilterParser.Transmit | pkg/db/filter.go:259-272 | a suitable filter sent as a query arrives with renamed columns and nothing else changed; sending fails if and only if an entry cannot be parsed |
| SmsRouting.LongestPrefixWins | pkg/sms/sms_manager.go:154-195 | with any stable sort by descending length the first match is a longest matching prefix, the earliest configured on ties, and there is none if and only if no prefix matches |
| SmsRouting.RouteIsBest | pkg/sms/sms_manager.go:187-195 | the provider is that of the best destination, or the default one exactly if no prefix fits |
| SmsRouting.SmsManager.SortDestinations | pkg/sms/sms_manager.go:164-167 | longer prefixes first, prefixes of one length in their order |
| SmsRouting.SmsManager.Init | pkg/sms/sms_manager.go:145-170 | errors for unknown providers in their order, otherwise sorted destinations |
| SmsRouting.SmsManager.ProviderFor | pkg/sms/sms_manager.go:187-195 | the provider of the first match, or the default one |
| SmsRouting.SmsManager.Send | pkg/sms/sms_manager.go:173-251 | a message is handed over only with its record stored under the chosen provider; the record tells the outcome unless its update failed |
| CallTrace.CaptureIsFirstSinceClear | pkg/op_context/default_op_context/default_op_context.go:212-231 | after every call tree the captured stack is that of the first frame, in the order of exits since the last clearing anywhere in the tree, that carries an error; without a clearing what was captured before stays |
| CallTrace.FirstErrorStays | pkg/op_context/default_op_context/default_op_context.go:212-231 | in a tree that clears nothing the first error of all stays |
| CallTrace.FindCustomerIsForgiven | pkg/multitenancy/tenancy_manager/tenancy_manager.go:272-291 | the lookup of a customer that fails by identifier and then clears the error leaves nothing captured; without the clearing it would |
| CallTrace.FirstGenericStays | pkg/op_context/default_op_context/default_op_context.go:233-237 | after every call tree the generic error is the first one set since it was last cleared or overridden |
| CallTrace.Context.TraceInMethod | pkg/op_context/default_op_context/default_op_context.go:189-199 | a new call context is pushed |
| CallTrace.Context.TraceOutMethod | pkg/op_context/default_op_context/default_op_context.go:212-231 | the stack is popped; the first error captures it |
| CallTrace.Context.PutGenericError | pkg/op_context/default_op_context/default_op_context.go:233-237 | when a generic error replaces the present one |
| CallTrace.Context.ClearError | pkg/op_context/default_op_context/default_op_context.go:365-368 | the captured stack and the generic error are forgotten |
| CallTrace.Context.Exec | pkg/op_context/default_op_context/default_op_context.go:189-231 | every bracketed call tree restores the stack and leaves the capture it means, whose frames carry their final errors and messages |
| CallTrace.Context.DumpLog | pkg/op_context/default_op_context/default_op_context.go:243-282 | messages outermost first, the deepest error, the path; then the context is clean |
| CallTrace.StackPath | pkg/op_context/default_op_context/default_op_context.go:178-187 | the names joined by colons |
| CallTrace.PathTellsNames | pkg/op_context/default_op_context/default_op_context.go:178-187 | the path can be taken apart into the names of the stack again |
| CallTrace.GatherJoinsEntries | pkg/op_context/default_op_context/default_op_context.go:243-282 | the message of a report joins the entries of the frames that have a message |
| CallTrace.Context.Operate | pkg/op_context/default_op_context/default_op_context.go:189-282 | the log entry of a whole operation reports the error of the captured frame whatever its callers did later, with the messages they set |
| Pools.RunKeepsIntegrity | pkg/pool/pool_controller.go:96-628 | over every run names of pools and of services are unique, a pool has one service for a role, and no binding dangles |
| Pools.DeleteUndoesAdd | pkg/pool/pool_controller.go:96-257 | deleting what was just added, by identifier or by name, gives back the tables |
| Pools.UnbindUndoesBind | pkg/pool/pool_controller.go:409-558 | removing a binding that was just made gives back the tables |
| Pools.DeletableExactly | pkg/pool/pool_controller.go:200-389 | a pool or service can be deleted if and only if nothing is bound to it, and always after its bindings were removed |
| Pools.RowsExactly | pkg/pool/pool_controller.go:96-119 | what adding and updating write, for exactly these conflicts nothing |
| Pools.DeletionExactly | pkg/pool/pool_controller.go:200-236 | what deleting removes, with the refusal of what is bound and the silence on what is unknown |
| Pools.BindingExactly | pkg/pool/pool_controller.go:409-470 | what binding writes, and why it is refused |
| Pools.UnbindingExactly | pkg/pool/pool_controller.go:514-558 | exactly the bindings of the pool for the role, of the pool, or of the service are removed |
| Pools.LoadedServicesExactly | pkg/pool/pool.go:54-69 | whatever the order of the joined rows, a loaded pool has a service for a role if and only if the binding exists, and no binding is lost |
| Pools.Pool.SetServices | pkg/pool/pool.go:64-69 | the map from roles to bindings, later rows replacing earlier ones |
| Pools.Pool.Service | pkg/pool/pool.go:54-62 | the binding of the role or none |
| Pools.PoolController.AddPool | pkg/pool/pool_controller.go:96-119 | the new tables and the outcome; integrity is kept |
| Pools.PoolController.UpdatePool | pkg/pool/pool_controller.go:153-198 | the new tables and the outcome; a used name is refused first |
| Pools.PoolController.DeletePool | pkg/pool/pool_controller.go:200-236 | the new tables and the outcome; refused while bindings exist |
| Pools.PoolController.AddService | pkg/pool/pool_controller.go:238-257 | the new tables and the outcome |
| Pools.PoolController.UpdateService | pkg/pool/pool_controller.go:305-350 | the new tables and the outcome |
| Pools.PoolController.DeleteService | pkg/pool/pool_controller.go:352-389 | the new tables and the outcome; refused while bound |
| Pools.PoolController.AddServiceToPool | pkg/pool/pool_controller.go:409-470 | the new tables and the outcome; the role must be free |
| Pools.PoolController.RemoveServiceFromPool | pkg/pool/pool_controller.go:514-558 | the one binding of the role is removed |
| Pools.PoolController.RemoveAllServicesFromPool | pkg/pool/pool_controller.go:560-593 | all bindings of the pool are removed |
| Pools.PoolController.RemoveServiceFromAllPools | pkg/pool/pool_controller.go:595-628 | all bindings of the service are removed |
| Pools.PoolController.GetPoolBindings | pkg/pool/pool_controller.go:630-672 | the join in any order, each binding once |
| Pools.PoolController.LoadPool | pkg/pool/pool_controller.go:718-745 | the loaded pool has a service for a role if and only if that binding exists, and it is that service |

## Left out

- HTTP server and clients, Redis, GORM and SQL text, configuration files, logging output and console tools: input and output.
- Encryption, hashing and Base64: library calls; a checksum is an arbitrary function and a token is its decoded record. Token identifiers and display names are not modelled.
- Failing connections during convergence, several queues and handlers at once, and administrator operations split between update and publication: convergence is stated for one queue with one handler and atomic operations.
- Connecting to a database outside the lock of the tenancy manager: connecting and storing a loaded tenancy are one step.
- Looking up a customer by identifier or login, creating and upgrading a tenancy database, and generating names are answers of the environment.
- `FullActualTenancyPath`, operations of resources and `CloneChain(true)`, clearing the service flag: not modelled. `Subresource` is `NamedSubresource` without an identifier.
- AddChild: the child must be a root, because attaching a resource a second time leaves it among the children of its old parent too, and the resources are no longer a forest.
- Several `Stop` callers of one worker: one run and one caller.
- Several clock readings inside one SMS request: a request reads the clock once.
- SMS code generation, masking of phone numbers and the text of messages.
- `UpdateSessionClient` is reduced to success or failure, and an update of a session that is not stored changes nothing.
- InvalidationIsFinal: speaks of the token check; the handler that follows another authentication method does not look at the validity of the session, and the tokens it puts out for an invalid session are covered because none of them is ever accepted.
- Inline schemas without a name, and the generic error code that a failing nested schema leaves in the context.
- Boolean, unsigned, float and time columns of filters; the builders `Add...`; the error a filter parser reports when several entries are invalid; JSON text of queries. SQL generated from filters.
- The sort of the standard library is replaced by a stable insertion sort; LongestPrefixWins holds for every stable sort.
- Encryption keys, foreign identifiers and raw responses of SMS records.
- Database failures in the pool tables, updates of columns other than name and activity, the operation log of pools, and binding lists by name.
- Logger fields and the close log of the operation context; logging at warning level.
