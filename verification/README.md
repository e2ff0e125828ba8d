# Verified models of the daemon core of sing-box-lx

This project models the parts of sing-box-lx whose correctness depends on interleavings, on state kept over many calls,
or on an inverse, and proves what they promise, for all inputs and all runs.

| files | what they model |
|---|---|
| `ServiceState`, `ServiceProtocol`, `ServiceInvariant`, `ServiceObject`, `ServiceTheorems`, `ServiceLeft`, `ServiceProgress`, `ServiceCalls`, `ServiceReturn` | the service lifecycle: any number of threads in `StartOrReloadService`, `CloseService`, `SetError`, `Close` and the readers, with the three locks `lifecycleAccess`, `serviceAccess` and `logAccess` |
| `ConnectionStream`, `ConnectionRun`, `ConnectionGrammar` | the incremental connection stream, with the accumulator of `experimental/libbox` as its client |
| `CleanupScope`, `BoxStart`, `BoxTeardown`, `BoxOrder` | cleanup scopes as objects, the staged start of a box and its teardown |
| `ScopeConcurrency`, `ScopeTheorems`, `ScopeLate`, `ScopeOrder`, `ScopeTree`, `ScopeCalls` | the same scopes used by many threads at once |
| `LatestStatus`, `LatestTheorems`, `LatestRuns` | the one-value slots, relays and the map of the tagged status stream |
| `Varint`, `SavedBinary`, `SavedFormat` | the binary form of a saved rule set |
| `LogRing`, `LogStream`, `LogTheorems`, `LogRuns` | the ring of log lines and the log stream with its batches |
| `GroupWalk` | the walk through outbound groups to the node that carries the traffic |

How the models relate to the code:

- A section of the code that runs under a short lock is one step of a transition system. The slow calls that run
  outside that lock (creating, starting and closing an instance, running a cleanup) are steps of their own, which may
  succeed or fail. `Reachable` and `Possible` range over all finite runs with any number of threads.
- State that the code updates in place is a class: `StartedService` has a method for every section of `serviceAccess`
  and, made of them, the two long calls; `Subscription` holds the snapshots of a connection stream, `Connections` is
  the client, `Scope` and `Box` are the cleanup scope and the box, `SavedBinaryFile` and `Ring` the codec and the log
  ring.
- What a run has done is also told from its actions alone and proved to be what the state says: the calls that were
  made and what each of them did (`ServiceCalls`), the cleanups and their failures (`ScopeCalls`), the statuses that
  were produced and sent (`LatestRuns`), the log calls and their notifications (`LogRuns`). `BoxOrder` and
  `SavedFormat` write the orders of start and teardown and the bytes of the format out.
- Clocks, the tables of the traffic manager, the outcome of starting a component and the current selection of a group
  are parameters. Instances, connections, components and log entries are numbers.

Properties that do not hold without a condition are stated with their exact condition, and with a run or an input that
shows why it is there: `StartingExactlyIfLeft` and `ClosedServiceCanStayStarting`; the clause of
`BuildInitialConnectionState` on connections in both tables; `TotalsExactlyIf` and `TickExactness`;
`PerformedExactlyIfClosed` and `LateCleanupIsLeft`; `StreamIsTheRest`, `EntryUnderWayIsShownTwice` and
`OvertakenEntryStays`. `NewestIsNeverLost` is about slots with one producer, which is how the code uses them;
`TwoProducersCanLoseTheNewest` shows why.

## Model

| member | source | states |
|---|---|---|
| `ServiceTheorems.AtMostOneOpen` | daemon/started_service.go:255-356 | in every reachable state at most one instance is open, and none has been closed twice |
| `ServiceTheorems.AllClosedBeforeNext` | daemon/started_service.go:264-290 | when a thread is about to create an instance, every earlier one has been closed exactly once |
| `ServiceTheorems.StopLeavesNothing` | daemon/started_service.go:334-356 | when `CloseService` is about to return there is no instance, the status is idle or fatal, and every instance ever created has been closed exactly once |
| `ServiceCalls.StopHasStopped` | daemon/started_service.go:334-356 | over every run: when a call of `CloseService` has returned, there was a moment just before it did with no instance, an idle or fatal status, and every instance created so far closed exactly once |
| `ServiceCalls.StopDeeds` | daemon/started_service.go:334-356 | over every run: what the thread of a `CloseService` that has returned did, from first to last: interrupt, take the instance out, and unless there was nothing to stop close it and end |
| `ServiceCalls.StartHasEnded` | daemon/started_service.go:255-321 | over every run: when a call of `StartOrReloadService` has returned, there was a moment just before it did at which the service was closed or fatal, or the instance this very call created was the running one, or this call had closed it |
| `ServiceCalls.StartDeeds` | daemon/started_service.go:255-321 | over every run: what the thread of a `StartOrReloadService` that has returned did, from first to last, in each of its ways: refused; log reset or old instance closed, then creation failed; created, published, started and kept; the same and closed again |
| `ServiceCalls.ShortDeeds` | daemon/started_service.go:323-363 | over every run: what the threads of the short calls did |
| `ServiceCalls.OnlyStartsStart` | daemon/started_service.go:323-363 | over every run: only the thread of a `StartOrReloadService` is ever about to create, publish or start an instance, and only the two long calls close one or hold the lifecycle lock |
| `ServiceCalls.ErrorWasShown` | daemon/started_service.go:358-363 | over every run: when a call of `SetError` has returned, the status was fatal before it wrote to the log |
| `ServiceCalls.CloseHasClosed` | daemon/started_service.go:323-332 | over every run: once a call of `Close` has returned the service is closed, for good |
| `ServiceCalls.OneAtATime` | daemon/started_service.go:255-363 | creating, starting and closing instances never overlap, nor do sections of `serviceAccess` with each other or with readers, nor sections of the log |
| `ServiceReturn.AnyCallReturns` | daemon/started_service.go:255-363 | after every run any call can be made, by a new thread, and all calls have a way to return, whether the slow calls succeed or fail |
| `ServiceReturn.WaitsExactly` | daemon/started_service.go:146-363 | in every reachable state, for which points of the other threads a thread waits: interrupts, errors and closes only for sections and readers, never for a slow call; a start or a stop for the one start or stop in progress; whoever waits for no lock can go on |
| `ServiceTheorems.CancelledNeverStarts` | daemon/started_service.go:165-172 | an instance cancelled by an interrupt never becomes the started one; only the start that created it closes it, and it has done so once all calls have returned |
| `ServiceTheorems.AbandonsExactlyWhenCancelled` | daemon/started_service.go:299-321 | at the decision of a start, its own instance is the published one and still open, and the start gives up if and only if that instance was cancelled: no interrupt is lost and none hits a later start |
| `ServiceTheorems.FlagOnlyDuringStart` | daemon/started_service.go:165-172 | `startInterrupted` is set only while the owner of the lifecycle lock is between publishing its instance and the decision, and then that instance has been cancelled |
| `ServiceTheorems.StatusMeansWhatItSays` | daemon/started_service.go:153-163 | started implies a start time and an open instance; starting with an instance implies that the lifecycle owner is starting exactly that one; stopping implies that the lifecycle lock is held; idle implies that there is neither an instance nor a start time; a published instance is never a closed one |
| `ServiceLeft.StartingExactlyIfLeft` | daemon/started_service.go:255-363 | over every run after which all calls have returned: the status is starting if and only if some start found it so on a closed service and returned, and neither an error nor a stop came after that |
| `ServiceLeft.StepKeepsLeft` | daemon/started_service.go:255-363 | every step keeps it: an interrupted start that is not cleared up has a waiting call or has been left by a refused one |
| `ServiceTheorems.QuietIsSettled` | daemon/started_service.go:255-356 | once all calls have returned the status is not stopping, the flag is down, and without an instance everything created has been closed exactly once |
| `ServiceProgress.ClosedServiceCanStayStarting` | daemon/started_service.go:256-263 | that is reachable: a start that interrupts another one and then finds the service closed leaves the status at starting |
| `ServiceProgress.SomeThreadCanStep` | daemon/started_service.go:255-363 | deadlock freedom: while a call is unfinished some thread can step, even with the rule that a waiting writer of a `RWMutex` keeps new readers out |
| `ServiceProgress.EveryCallReturns` | daemon/started_service.go:255-363 | a run without new calls has a bounded length, and when it cannot go on every call has returned |
| `ServiceProgress.RunsEnd` | daemon/started_service.go:255-363 | every step uses up some of the bounded work its threads have left |
| `ServiceInvariant.ActKeepsInv` | daemon/started_service.go:146-363 | every step of every thread keeps the invariant over locks, fields, instances and waiting interrupters |
| `ServiceInvariant.StepKeepsLocks` | daemon/started_service.go:146-172 | each lock has at most the one owner whose program point holds it, and readers exclude writers |
| `ServiceInvariant.StepKeepsFields` | daemon/started_service.go:255-363 | the shared fields always fit what the lifecycle owner is doing, whatever interrupts, errors and closes come in between |
| `ServiceInvariant.StepKeepsInstances` | daemon/started_service.go:255-356 | the histories of all instances stay consistent: open if and only if live, closed once, cancelled or started but not both |
| `ServiceInvariant.StepKeepsWaiters` | daemon/started_service.go:165-172 | while an interrupted start has not been cleared up, some call is waiting for the lifecycle lock or the service has been closed |
| `ServiceObject.StartedService.StartOrReloadService` | daemon/started_service.go:257-321 | with any interrupts, errors and closes coming in while `serviceAccess` is released: the call is refused exactly on a closed service; it gives up exactly if an interrupt came between publishing and decision with no error since the creation began; it ends with the new instance running exactly if that did not happen and both slow calls succeeded; it closes exactly the old instance and a new one that does not run, in this order; a start given up leaves the status at starting unless an error came, a failed one at fatal; the start time is kept unless the start succeeds and sets it; the service is closed afterwards exactly if it was or a close came in |
| `ServiceObject.StartedService.CloseService` | daemon/started_service.go:336-356 | closes exactly the instance that was there, and whatever comes in meanwhile leaves no instance, no start time and an idle service; the service stays exactly as it was if it had no instance and was neither starting nor started |
| `ServiceObject.StartedService.MakeRoom` | daemon/started_service.go:259-283 | the first part of a start closes exactly the old instance and reaches a starting service without one, with the start time it had, whatever comes in meanwhile |
| `ServiceObject.StartedService.Launch` | daemon/started_service.go:295-321 | the second part gives up exactly if the service was still starting and an interrupt came before any error, and then leaves the status at starting unless an error came; what does not run has been taken out for the caller to close; the start time is set exactly on success |
| `ServiceObject.StartedService.Gap` | daemon/started_service.go:165-172 | whatever other threads do while the lifecycle is owned keeps what the owner relies on at that point |
| `ServiceObject.DisturbedStart` | daemon/started_service.go:165-172 | other threads never change instance or start time; they raise the flag exactly by an interrupt of a published start that no error came before |
| `ServiceObject.StartedService.InterruptStart` | daemon/started_service.go:165-172 | names for cancellation exactly the instance that the lifecycle owner is starting, unless an error has changed the status, and disturbs no other phase |
| `ServiceObject.StartedService.Take` | daemon/started_service.go:259-268 | refuses exactly on a closed service, else hands out the running instance, leaves none and shows stopping, or changes nothing if there is none, in the phase that the start goes on with |
| `ServiceObject.StartedService.Begin` | daemon/started_service.go:278-279 | from either way in, reaches the phase in which an instance may be created |
| `ServiceObject.StartedService.CreateError` | daemon/started_service.go:286-289 | a failed creation leaves a service at rest |
| `ServiceObject.StartedService.Publish` | daemon/started_service.go:295-297 | reaches the phase in which exactly this instance is being started |
| `ServiceObject.StartedService.Decide` | daemon/started_service.go:299-318 | gives up exactly if interrupted and succeeds exactly if the start did and was not; the whole new state in each case: the instance stays only on success, the flag goes down only when giving up, the status becomes fatal only on failure |
| `ServiceObject.StartedService.StopTake` | daemon/started_service.go:338-346 | hands out the instance, leaves none, and goes on, showing stopping, exactly if there was an instance or the service was starting or started |
| `ServiceObject.StartedService.StopEnd` | daemon/started_service.go:350-353 | whatever came in meanwhile, ends in the phase that `CloseService` returns from |
| `ServiceObject.StartedService.SetFatal` | daemon/started_service.go:358-361 | at any point of a start or stop, keeps what its owner relies on |
| `ServiceObject.StartedService.SetClosed` | daemon/started_service.go:323-326 | at any point of a start or stop, keeps what its owner relies on |
| `ServiceObject.StartedService.Follow` | daemon/started_service.go:221-226 | at any point of a start or stop, hands out an instance if and only if the service is started, never nil then |
| `ConnectionRun.SubscribeConnections` | daemon/started_service.go:827-904 | for every mix of event batches and ticks after the first message: every message makes sense to the client when it comes, and after every tick the client has exactly the manager's active connections, and of each exactly the manager's totals less what was missed at backward readings since the connection was last announced, and as its rate exactly the change since the last reading; and on all paths, if whatever the manager says of the end of a connection is that it was closed at `t`, the client never shows another closing time |
| `ConnectionGrammar.Grammar` | daemon/started_service.go:912-1076 | in all that is ever sent: an UPDATE has no negative delta and follows the announcement of its connection with nothing but UPDATEs in between, an UPDATE without traffic comes right after one with traffic, and an active connection is announced only at first or after its end |
| `ConnectionGrammar.LastTells` | experimental/libbox/command_types.go:144-183 | what the client shows of a connection is what the last event about it said: the announced values, the deltas as rate, or no rate, the closing time and the totals that came with it |
| `ConnectionRun.TotalsExactlyIf` | daemon/started_service.go:980-1044 | so after a tick the client has the manager's totals of a connection if and only if what was missed since it was last announced adds up to nothing |
| `ConnectionRun.SteadyMissesNothing` | daemon/started_service.go:1003-1018 | nothing is missed as long as no counter has gone backwards since the connection was last announced |
| `ConnectionRun.ServeAll` | daemon/started_service.go:862-904 | the loop keeps daemon and client in step from any first message on, and keeps to one closing time |
| `ConnectionRun.Serve` | daemon/started_service.go:869-902 | one batch or tick keeps snapshots and client in step, whatever was lost before, their totals apart by exactly what was missed, and keeps to one closing time |
| `ConnectionRun.Drain` | daemon/started_service.go:869-893 | a drained batch of manager events keeps snapshots and client in step, in ids and, connection by connection, in totals, and keeps to one closing time |
| `ConnectionRun.TickExactnessOne` | daemon/started_service.go:985-1043 | after a tick the client has the manager's totals of a connection if and only if it was new or none of its counters went backwards |
| `ConnectionRun.TickExactness` | daemon/started_service.go:980-1044 | after a tick the client has exactly the manager's table if and only if no counter of an announced connection went backwards |
| `ConnectionStream.Subscription.BuildInitialConnectionState` | daemon/started_service.go:912-938 | the first message announces every active and every closed connection with its own totals and times; snapshots and client agree afterwards if and only if no connection is in both tables |
| `ConnectionStream.Subscription.ApplyConnectionEvent` | daemon/started_service.go:940-978 | an event keeps snapshots and client in step; it is silent exactly if it is unknown or announces a known connection; the closing time sent and kept by the client is the event's if that is set, else the connection's if that is set, else the clock's; a closed connection ends with its final totals |
| `ConnectionStream.Subscription.BuildTrafficUpdates` | daemon/started_service.go:980-1076 | a tick makes the client see exactly the traffic since the last message and exactly the active connections, closes the others with what the manager remembers of them, and sends at most one message per connection, in whatever order the map is visited |
| `ConnectionStream.Subscription.UpdateOne` | daemon/started_service.go:985-1043 | NEW only for a connection that is not active at the client, UPDATE only for one that is, never a negative delta, and an empty UPDATE only right after one with traffic, also when counters go backwards |
| `ConnectionStream.Subscription.UpdateActive` | daemon/started_service.go:985-1044 | the loop over the active table equals the per-connection effect taken together, with one message per connection |
| `ConnectionStream.Subscription.CloseStale` | daemon/started_service.go:1046-1073 | exactly the announced connections that are no longer active are closed and forgotten, once each, in any order |
| `ConnectionStream.AnnounceClosed` | daemon/started_service.go:927-936 | every connection listed as closed is shown as closed with its totals and time, those of its last entry |
| `ConnectionStream.IndexClosed` | daemon/started_service.go:1051-1056 | the index has exactly the ids of the closed table and points at the last entry of each |
| `ConnectionStream.AfterTick` | daemon/started_service.go:980-1076 | the domain of the snapshots, the client's active set and the manager's table are the same set after a tick |
| `ConnectionStream.AfterInitial` | daemon/started_service.go:912-938 | the snapshots agree with the client after the first message if and only if the two tables are disjoint |
| `ConnectionStream.Connections.ApplyEvents` | experimental/libbox/command_types.go:144-183 | the client's map after a message is the replay of its events, from nothing if the message is a reset |
| `CleanupScope.CloseReversesRegistration` | adapter/lifecycle.go:128-142 | closing a tree of scopes runs everything in the exact reverse of the tree written out in place |
| `CleanupScope.RunsAreAdded` | adapter/lifecycle.go:85-142 | whatever is registered in a scope or anywhere below it is run when the scope is closed, exactly as often as it was registered |
| `CleanupScope.ReportedExactly` | adapter/lifecycle.go:128-142 | what is reported is exactly the cleanups that ran and broke |
| `CleanupScope.EarlierStartedClosesLater` | adapter/lifecycle.go:91-142 | if `a` was started before `b`, all cleanups of `b` run before any of `a`, even those `a` registered in a later stage |
| `CleanupScope.GrowKeepsPlaces` | adapter/lifecycle.go:85-108 | whatever is registered or started later, a cleanup or a child scope keeps its place |
| `CleanupScope.Scope.AddCleanup` | adapter/lifecycle.go:85-89 | adds one cleanup at the end, also to a closed scope |
| `CleanupScope.Scope.Close` | adapter/lifecycle.go:128-142 | runs everything below the scope in closing order, whichever cleanups fail, leaves it closed and empty, and returns exactly the failures that are neither closed nor cancelled, in the order in which they happened; a second call runs only what came in between |
| `CleanupScope.Scope.RunEntry` | adapter/lifecycle.go:103-113 | one cleanup, or one child scope whose errors are wrapped, runs its part of the closing order and reports its part of the failures |
| `CleanupScope.Scope.ChildOf` | adapter/lifecycle.go:98-113 | finds the child scope of a component or registers a new one, never a second one |
| `CleanupScope.Scope.StartComponent` | adapter/lifecycle.go:91-126 | the component is invoked if and only if no context is cancelled; then what it does lands in its own child scope at its first place, otherwise nothing changes |
| `CleanupScope.Scope.Perform` | adapter/lifecycle.go:85-126 | any nesting of registrations and starts builds the tree that the same acts build on values |
| `ScopeTheorems.ExactlyOnePlace` | adapter/lifecycle.go:85-142 | under every interleaving each registered cleanup is waiting in a scope, in the hands of one closing thread, or performed, once in all; nothing runs twice |
| `ScopeTheorems.StartNeverPanics` | adapter/lifecycle.go:91-100 | a start never writes to the nil map of children, and in or below a closed scope it registers nothing |
| `ScopeTheorems.OneChildPerComponent` | adapter/lifecycle.go:97-113 | a component started in many stages has one child scope and one closing entry, and starting it again registers nothing |
| `ScopeCalls.StartRegisters` | adapter/lifecycle.go:91-113 | a start whose context is not done leaves the component with a child scope under this one whose closing entry waits here; a new component gets exactly one scope, open and empty, with one entry at the end, and nothing else changes |
| `ScopeCalls.ContextDoneExactly` | adapter/lifecycle.go:91-96 | a start is refused exactly if the context around the tree, the scope or a scope above it was cancelled |
| `ScopeCalls.AddRegisters` | adapter/lifecycle.go:85-89 | a cleanup is registered at the end of its scope, open or closed, and nowhere else |
| `ScopeCalls.EnterTakesAll` | adapter/lifecycle.go:128-134 | the locked part of a close cancels the scope, empties it and takes over all its cleanups |
| `ScopeCalls.CloseHasClosed` | adapter/lifecycle.go:128-142 | over every run: a call of `Close` that has returned has closed its scope |
| `ScopeCalls.AnyCloseReturns` | adapter/lifecycle.go:128-142 | from every reachable state any scope can be closed and all closes have a way to return, whether cleanups fail or not |
| `ScopeCalls.FailedExactly` | adapter/lifecycle.go:128-142 | over every run: the cleanups performed and the failures collected are exactly those of the steps that ran a cleanup, in their order |
| `ScopeCalls.CancelledOuter` | adapter/lifecycle.go:91-96 | over every run: once the context around the tree is cancelled no start registers anything |
| `ScopeTheorems.TeardownIsComplete` | adapter/lifecycle.go:128-142 | once the root is closed and no `Close` is in progress the whole tree is closed and every cleanup not added late has run exactly once |
| `ScopeTheorems.FailuresChangeNothing` | adapter/lifecycle.go:128-142 | whichever cleanups fail, the same calls lead to the same state with the same cleanups performed in the same order |
| `ScopeLate.PerformedExactlyIfClosed` | adapter/lifecycle.go:85-142 | whatever is registered in a scope, in time or late, has run at the end of a run if and only if some `Close` of that scope took over its cleanups during the run |
| `ScopeLate.LateCleanupIsLeft` | adapter/lifecycle.go:85-89 | a cleanup added after the close can be left waiting for ever |
| `ScopeTheorems.EveryCloseReturns` | adapter/lifecycle.go:128-142 | concurrent and nested calls of `Close` always finish, within a bounded number of steps |
| `ScopeOrder.ReverseUnderConcurrency` | adapter/lifecycle.go:85-142 | if `f` was registered in a scope after `e`, then under every interleaving of further calls `f` has run before `e` once `e` has run |
| `ScopeTree.SubtreesInReverse` | adapter/lifecycle.go:91-142 | when the root is the only scope closed from outside, by any number of concurrent calls: if component `b` was first started after its sibling `a`, every cleanup below `b` that was added in time has run before any cleanup below `a`, whatever is added and started meanwhile |
| `ScopeTree.ActKeepsTree` | adapter/lifecycle.go:85-142 | every step keeps the thread that closed the root on one path from it, with only closed and finished subtrees behind, and leaves all other closers of the root nothing but late cleanups of the root |
| `ScopeConcurrency.ActConserves` | adapter/lifecycle.go:85-142 | every step conserves registered cleanups: pending plus handed out plus performed |
| `BoxTeardown.TeardownMirrorsStart` | box.go:531-700 | for every list of internal services and every failure point: closing tears down exactly the components whose start was invoked, the failed one included, and what the box acquired, once each, in reverse order of first invocation |
| `BoxOrder.StartOrder` | box.go:566-684 | the components invoked by a start without failure, stage by stage, in their exact order |
| `BoxOrder.TeardownOrder` | box.go:566-700 | the teardown after it, in its exact order: NTP service, the managers from the services back to the HTTP client, the internal services from last to first, the debug server if there is one, the logger |
| `BoxOrder.CarriedOutExactly` | box.go:546-684 | for every failure point: a component was invoked at a stage exactly if the start came to that step and no context was cancelled by then, and something was acquired exactly if the start came to it, it succeeded, and it was not an absent debug server |
| `BoxStart.StopsAtFirstError` | box.go:546-554 | every step tried before the last one returned no error and met no cancelled context; if the plan fails the last one did |
| `BoxTeardown.OwnersOnce` | box.go:546-564 | the components torn down are exactly those with an invoked start, each listed once however many stages it went through |
| `BoxTeardown.EveryStageOnce` | box.go:566-684 | in a start without failure every manager, and every internal service that is listed once, gets initialize, start, post-start and started once each in this order; the HTTP client service only the first two |
| `BoxTeardown.RunKeeps` | box.go:546-564 | the steps carried out are those of the plan up to and including the first failure |
| `BoxTeardown.PlanOwners` | box.go:546-684 | after any number of steps the scope holds one entry per started component and acquisition, in the order of first use |
| `BoxStart.Box.StartComponents` | box.go:546-554 | the loop carries out the launches up to the first failure; on success every component started without an error and with no context cancelled, otherwise the last one tried returned an error or met a cancelled context |
| `BoxStart.Box.PreStart` | box.go:566-616 | carries out the pre-start part of the plan, stopping at the first failure |
| `BoxStart.Box.StartRest` | box.go:618-644 | carries out the rest of the start stage, with the NTP service only if there is one |
| `BoxStart.Box.Finish` | box.go:645-684 | carries out the post-start and started stages |
| `BoxStart.Box.StartBox` | box.go:531-539 | on success no step tried returned an error; otherwise the last step tried returned one or met a cancelled context, none before it returned one, everything registered so far has been closed in closing order, and the scope is empty and closed |
| `BoxStart.Box.StartAll` | box.go:618-684 | the start runs the whole plan and succeeds exactly if all of it does |
| `BoxStart.Box.CloseBox` | box.go:686-700 | closes the scope in closing order and returns its failures; only the first call quiesces the router |
| `LatestTheorems.NewestIsNeverLost` | daemon/started_service.go:1423-1517 | in every reachable state the statuses of a source in map, updates channel, relay, slot and store, read in this order, are an ordered part of its production that ends with the last one produced until its relay has quit, which it does only on cancellation; the third `select` never gives a status up |
| `LatestTheorems.StatusesOnlyAdvance` | daemon/started_service.go:1489-1500 | the stream's map never goes back to an older status |
| `LatestTheorems.SettledShowsNewest` | daemon/started_service.go:1423-1517 | when nothing inside the pipeline can move, the client has the newest status of every source that produced one and whose relay has not quit |
| `LatestRuns.RestShowsNewest` | daemon/started_service.go:1423-1517 | over every run that has sent its first message and was not stopped: by whatever steps the pipeline goes on until it cannot, within a bounded number of them the last message sent has, of every source that produced a status and whose relay did not quit, the last one it produced |
| `LatestRuns.ComesToRest` | daemon/started_service.go:1470-1517 | there always is such a way to come to rest |
| `LatestRuns.FollowsOnceSent` | daemon/started_service.go:1446-1498 | over every run: the stream follows updates if and only if it has sent its first message and was not stopped; before that it has collected as many sources as there were collecting steps; it has sent one message at first and one per delivery |
| `LatestRuns.ProducedSoFar` | daemon/started_service.go:1438-1443 | over every run: what the state holds as the production of a source is what was produced in the run |
| `LatestRuns.FirstHasAll` | daemon/started_service.go:1446-1464 | over every run: nothing is sent before the first message, which has a status of every source that did not finish |
| `LatestRuns.MessagesMoveForward` | daemon/started_service.go:1446-1498 | over every run: every status in a message was produced by its source, and from message to message no source is dropped or goes back |
| `LatestRuns.CollectWaitsExactly` | daemon/started_service.go:1447-1459 | the stream waits for a source between two stores exactly if that has produced nothing and has not finished |
| `LatestRuns.PutWaitsExactly` | daemon/started_service.go:1470-1497 | a relay with a status waits exactly while as many updates as there are sources are waiting, and then a following stream can deliver |
| `LatestRuns.ProducersNeverWait` | daemon/started_service.go:1503-1517 | over every run: between two stores a source can produce unless it has finished, and a store can always go on and ends within three channel operations, whatever relay and stream do |
| `LatestRuns.RelaysMoveExactly` | daemon/started_service.go:1461-1484 | over every run: the first message can be sent exactly once all sources are collected, a relay takes a status exactly if it has none and its slot has one after that, and quits exactly on cancellation |
| `LatestRuns.FinishedIsPassedOver` | daemon/started_service.go:1451-1461 | a source that finishes without a status is passed over, and the first message is sent without it |
| `LatestTheorems.PipelineSettles` | daemon/started_service.go:1468-1517 | without new statuses it comes to rest within a bounded number of steps |
| `LatestTheorems.TwoProducersCanLoseTheNewest` | daemon/started_service.go:1503-1517 | with two producers on one slot the newest status can be the one given up |
| `LatestStatus.StoreKeeps` | daemon/started_service.go:1503-1517 | each channel operation of a store keeps the order and the newest status, against any interleaving with the relay |
| `LatestStatus.ActKeepsInv` | daemon/started_service.go:1423-1517 | every step of every source, relay and the stream keeps the invariant |
| `SavedBinary.DecodeUndoesEncode` | adapter/experimental.go:58-149 | decoding an encoding yields content, etag and URL hash exactly and the time to whole seconds, whatever the receiver held and whatever follows |
| `SavedBinary.DecodeReadsVersion1` | adapter/experimental.go:95-135 | a file of version 1 yields the same first three fields and leaves the URL hash as it was |
| `SavedBinary.PrefixIsRejected` | adapter/experimental.go:95-149 | every strict prefix of an encoding is rejected |
| `SavedBinary.DecodeInBounds` | adapter/experimental.go:95-149 | for arbitrary bytes, the lengths allocated together with what is left unread never exceed the input |
| `SavedBinary.DecodeExtends` | adapter/experimental.go:95-149 | what decodes decodes to the same with anything appended, and exactly that is left unread |
| `SavedBinary.EncodeIsInjective` | adapter/experimental.go:58-93 | equal encodings come from equal values, up to fractions of a second |
| `SavedFormat.UvarintBytes` | adapter/experimental.go:64-67 | byte `k` of a length holds its bits from 7 * `k` on, all bytes but the last have the high bit, and none could be left out |
| `SavedFormat.Int64Bytes` | adapter/experimental.go:72-75 | seconds are eight bytes in two's complement, the highest first |
| `SavedFormat.UvarintExactly` | adapter/experimental.go:102-105 | what is read from any bytes: the value whose bits they hold if they end within ten bytes and fit in 64 bits; end of input; unexpected end; overflow; and how far the reader has got |
| `SavedFormat.OneOfThese` | adapter/experimental.go:102-105 | one of these is always the case |
| `SavedFormat.Int64Exactly` | adapter/experimental.go:114-118 | what is read from any bytes as seconds, or why there is no value |
| `SavedFormat.TooLongIsRejected` | adapter/experimental.go:106-108 | a length beyond what is left is rejected by name, and nothing is taken |
| `SavedFormat.AnyVersion` | adapter/experimental.go:95-149 | any version byte below 2 leaves the receiver's URL hash, any from 2 on has it read |
| `SavedFormat.DamageKeepsTheRest` | adapter/experimental.go:95-149 | a damaged file never changes the URL hash, the etag only from version 2 on, and its error fits what the reader has left |
| `SavedBinary.SavedBinaryFile.MarshalBinary` | adapter/experimental.go:58-93 | the buffer is the encoding: version 2, content, seconds, etag and hash in this order, with their lengths |
| `SavedBinary.SavedBinaryFile.UnmarshalBinary` | adapter/experimental.go:95-149 | the fields after the call, the error, the bytes the reader has left and the bytes allocated are those of decoding into the old fields, on every error path too |
| `Varint.UvarintReadsBack` | adapter/experimental.go:64-105 | a base-128 varint of any 64-bit value is read back exactly, whatever follows |
| `Varint.ScanUvarint` | adapter/experimental.go:102-105 | the loop that adds up shifted groups of seven bits reads what the recursive definition reads, fails on the same inputs with the same bytes consumed, and never exceeds 64 bits |
| `Varint.ScannedIsRead` | adapter/experimental.go:102-105 | adding up from the lowest byte gives the value that is defined from the highest one |
| `Varint.WriteUvarint` | adapter/experimental.go:64-67 | the loop appends exactly the varint |
| `Varint.Int64ReadsBack` | adapter/experimental.go:72-75 | a signed 64-bit time is read back from its eight big-endian bytes |
| `LogRing.RingKeepsTheLast` | daemon/log_ring.go:13-39 | after any sequence of pushes and resets the ring lists the last `maxLines` entries pushed since the last reset, oldest first, and nothing if `maxLines` is not positive |
| `LogRuns.RingContents` | daemon/log_ring.go:13-39 | line by line: the ring lists the entries of the last operations, as many as were pushed since the last reset and fit |
| `LogRuns.LogOfRun` | daemon/started_service.go:146-151 | over every run: the ring is the ring object after the pushes and resets in the order of the lock, and the observer has delivered the notifications in the order in which it got them |
| `LogRuns.NextExactly` | daemon/started_service.go:146-151 | over every run: a call can take the lock exactly if it has not, notify exactly if it has and did not, a notification can be delivered exactly while one is there: no call waits for the subscriber |
| `LogRuns.SnapshotOfRun` | daemon/started_service.go:392-401 | over every run: the subscriber's saved lines are those of the ring where it subscribed |
| `LogRing.PushedAtTheEnd` | daemon/log_ring.go:13-26 | a push drops the oldest entry of a full ring and adds the new one at the end, wherever the ring begins |
| `LogRing.Ring.PushEntry` | daemon/log_ring.go:13-26 | the in-place push is one more operation of the ring |
| `LogRing.Ring.Array` | daemon/log_ring.go:28-33 | returns the last `maxLines` entries pushed since the last reset |
| `LogRing.Ring.ResetAll` | daemon/log_ring.go:35-39 | forgets everything before it |
| `LogStream.Drain` | daemon/started_service.go:419-445 | the single batched message has exactly the entries after the last reset drained, resets exactly if there was one, and shows any client what the drained entries and resets would have shown it one by one |
| `LogStream.SubscribeLog` | daemon/started_service.go:392-454 | however notifications fall into batches, the client shows the saved lines followed by all notifications in order |
| `LogTheorems.NoGap` | daemon/started_service.go:392-401 | every call that takes the log lock after the locked snapshot reaches the subscriber exactly once, as soon as its notification is no longer under way |
| `LogTheorems.StreamIsExact` | daemon/started_service.go:392-401 | how often a notification reaches the subscriber: once if its call came after the snapshot, once if it came before but was still under way, never otherwise |
| `LogTheorems.StreamIsTheRest` | daemon/started_service.go:392-401 | when nothing is under way any more, the subscriber has got exactly the calls after its snapshot in the order of the lock if and only if nothing was under way at the snapshot and those calls notified the observer in that order |
| `LogTheorems.ClientHasTheRing` | daemon/started_service.go:2136-2141 | then the client has the lines of the ring |
| `LogTheorems.ClientHasTheRingOnlyThen` | daemon/started_service.go:2136-2141 | as long as there was no reset and the ring has dropped nothing, it has them if and only if that is so |
| `LogTheorems.EntryUnderWayIsShownTwice` | daemon/started_service.go:2136-2141 | an entry pushed but not yet delivered at the snapshot is shown twice: the first condition is needed |
| `LogTheorems.OvertakenEntryStays` | daemon/started_service.go:146-151 | an entry whose writer is overtaken by a reset is gone from the ring and stays with the client: the second condition is needed |
| `GroupWalk.ResolveNode` | daemon/conntest_lx.go:344-369 | the walk ends within one round more than there are outbounds even if selections change meanwhile; it ends at the first tag that is not a group or that was seen before; a node found has its own type if it is an outbound, else that of the endpoint |
| `GroupWalk.WalkedTrail` | daemon/conntest_lx.go:344-369 | the tags looked up start with the given one, each but the last is a group pointing at the next by its TCP pick, else its UDP pick, else nothing, none comes twice; without a node the last one is unknown or points back |
| `GroupWalk.FixedSelection` | daemon/conntest_lx.go:344-369 | on a fixed selection a node is returned if and only if following selections reaches one, and it is that one; nothing is returned if and only if that reaches an unknown tag or goes round |
| `GroupWalk.OneOutcome` | daemon/conntest_lx.go:344-369 | with any changes of selection the result and the number of rounds are determined |

## Left out

- Construction of a box and of an instance, parsing of configurations, gRPC, protobuf and the generated code.
- The libraries for observers, contexts, error lists and task monitors; it is assumed that `Emit` neither blocks nor
  loses anything and that notifications are delivered in the order in which they were emitted.
- `waitForStarted` and the throttles of `SubscribeGroups` and `SubscribeOutbounds`: they depend on the buffers of the
  observers.
- The out-of-memory recorder, the release of memory, log output, timeouts, and the hooks added to a new instance.
- Services attached to a foreign instance; they must not be started or stopped.
- What a follower does between two readings of the instance: only the locked reading is modelled.
- The other fields of a connection (rule, hosts, process), and the client's sorting, filtering and eviction of
  connections that were closed long ago.
- Empty batches of connection events are listed as messages here, while the code does not send them.
- The traffic manager itself: its tables are taken as read at one moment with the counters fixed within a step, one
  entry per id, and a connection that the first message found in both tables is not listed as active again.
- Times of exactly zero Unix milliseconds, which the client would take for an active connection, and the wrap-around
  of 64-bit counters.
- The texts of the errors that `Scope.Close` returns, the removal of repeated ones by the error library, and the names
  and log lines of `Scope.Start`.
- Scopes as shared objects under concurrency: `ScopeConcurrency` keeps them in a list. The order of cleanups of
  different scopes is proved for closes of the root from outside; in the repository a child scope is closed only by its
  parent.
- The watchdog that dumps goroutines when closing a box takes long, the debug options, the entry point that
  only pre-starts a box, and a box without a router.
- The tagged status stream is modelled on values, one channel operation at a step. Its tags are taken to be different,
  and relays may still move statuses after the stream has stopped.
- Which of its fields a saved rule set names in an error, and reading at a lower level than a list of bytes.
- The debug handler that `WriteMessage` may call.
- Managers that do not exist are managers without entries in `GroupWalk`; the pair of empty strings is `NotFound`.
