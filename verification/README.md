# Verified models of controller-runtime

This project models the parts of controller-runtime that keep state across
calls or across goroutines, and proves what they promise over every input, every
interleaving or every run:

- the controller manager's life: registration, the two start sections, leader
  election and the stop procedure (`Manager`, `ManagerRuns`, `ManagerStop`);
- the promise tree behind the delegating logger (`Logger`, `LoggerRuns`);
- the informer cache: the double-checked informer map (`Informers`), field
  indexes and cached lists (`CacheReader`), lists over several namespaces
  (`MultiNamespace`);
- deletion and optimistic concurrency: the fake API store (`FakeStore`), the
  finalizer helpers and the finalizer loop (`Finalizers`), and the protocol they
  form together (`DeletionRuns`);
- hub-and-spoke version conversion (`Conversion`);
- the channel event source (`ChannelSource`);
- version selectors, platforms, version selection and command-line arguments of
  the test tooling (`Versions`, `Platforms`, `EnvSelect`, `Arguments`).

`Common`, `Decimal`, `Text` and `Sorting` hold what these share.

Objects whose methods update fields are classes, and their loops are methods with
invariants, each proved equal to a specification function. Goroutines are
interleaved: a state, actions, `Enabled`, `After`, and `Exec` over a list of
actions. What the code does under one lock without blocking is one action, and a
section that blocks with the lock held is cut at each wait. A statement about `Exec`
or `Reachable` is one about every interleaving.

Verify with `dafny verify dfyconfig.toml`. The models are verified, not executed.

## What turned out false, and exactly when it holds

- The manager's comment asks that webhook servers start before any cache. That
  holds exactly when `startNonLeaderElectionRunnables` gets the lock before the
  caches were started, or there are no such servers or no caches
  (`WebhooksFirstIff`). `WebhookAfterCacheRun` is a run that violates it.
- A non-leader-election runnable can be launched twice. This happens exactly when it
  is added after `started` was set and before its section ran
  (`LaunchedOnceIffNoWindow`). `DoubleLaunchRun` is such a run.
- At the moment the stop procedure cancels leader election nothing that was
  registered is running, but the metrics server, launched without the lock, may
  be (`NoRunnableRunsAtCancel`, `MetricsAtCancelRun`). After that moment members of
  a group are still launched in some continuation exactly when the section that
  launches them has not run yet and finds some: the callback of a won election for
  leader-election runnables, the other section for the rest, and either one for the
  caches (`LaunchAfterCancelIff`). `LaunchAfterCancelRun` reaches such moments.
- Fulfilment skips `V(0)` and a `WithValues` without arguments, while deriving
  afterwards passes them on. The two agree exactly for loggers on which both calls
  are identities (`CommutesIffIdentities`).
- `Limit` in `CacheReader.List` counts scanned objects. A limited list is as long as
  limit and matches allow exactly when everything is scanned, or all that is scanned
  matches, or nothing matches beyond it (`LimitIsExactIff`); a label selector has this
  in every cache exactly if it accepts all label sets or none
  (`ExactForAllCachesIff`, `LimitMissesMatches`). The same holds of lists over several
  namespaces (`GotIsExactIff`, `ExactForAllMultiCachesIff`).
- Indexing a cluster-scoped object overwrites the slice its extractor returned. If
  the object owns that slice, the keys of a second indexing differ unless it is
  empty (`ReindexingItsOwnKeys`).
- Resource versions of the fake store grow with each update exactly below the
  largest 64-bit number (`StrictGrowthIffBelowMax`), where they wrap (`VersionWraps`).
- The finalizer guarantee can break in three ways. Versions of a re-created object start
  again at one, so a late writer can replace a new object whose finalizer never ran;
  some creation of a vanished key leads there exactly when somebody is still about to
  write the key at a version that can come back (`RecreationIff`, `AwaitedArises`).
  Versions also start again, at zero, after the largest one; some write there leads to
  the same exactly when somebody else is still about to write the object (`WrapIff`). And a
  delete that saw no finalizers removes whatever is stored later. It can take a
  finalizer before its time unless everything that holds the object has succeeded and
  its version is not a number, so that no update can change it (`RemovalCanBetrayIff`);
  it never does if nothing comes between its two halves (`AtomicDeletesAreHarmless`).
  In all runs without these three kinds of steps the guarantee holds
  (`LeavesOnlyAfterSuccess`).
- The tests say that a Lease may be created by an update, but call `Create`. The tables
  name API groups in short, so it may not, nor may any kind of a group with a dot in its
  name be created by an update or updated without a version (`KindDecides`,
  `TestedKinds`).
- `IsConvertible` is not the only way for all versions to convert into each other: kinds
  with several hubs that convert each other do too, and `IsConvertible` reports them as
  partial (`TotalIffConvertible`).

## Model

| member | source | states |
|---|---|---|
| `Manager.ControllerManager.constructor` | pkg/manager/internal.go:64-186 | a new manager is stopped, empty, with a zero wait group |
| `Manager.ControllerManager.StartRunnable` | pkg/manager/internal.go:692-700 | one launch more in the trace and in the wait group, nothing else changes |
| `Manager.ControllerManager.Add` | pkg/manager/internal.go:194-225 | refused, with no effect, exactly once the stop procedure engaged; otherwise a runnable that needs no leader election joins the first list, any other one with a cache the second and the rest the third, and it is launched at once exactly when `started`, never, or when `startedLeader` |
| `Manager.ControllerManager.StartMatching` | pkg/manager/internal.go:586-604 | launches, in order, exactly the listed runnables that satisfy the test |
| `Manager.ControllerManager.StartAll` | pkg/manager/internal.go:612-618 | launches the listed runnables once each, in order |
| `Manager.ControllerManager.StartCaches` | pkg/manager/internal.go:623-630 | launches all caches unless `started` was set, and waits exactly in the former case |
| `Manager.ControllerManager.StartLeaders` | pkg/manager/internal.go:612-621 | launches the leader-election runnables and sets `startedLeader` |
| `Manager.PhasesKept` | pkg/manager/internal.go:435-642 | every step keeps the lock, the sections, the flags and the main goroutine consistent |
| `Manager.CountsKept` | pkg/manager/internal.go:194-225 | every step keeps the balance between launches and registrations of each group |
| `ManagerRuns.GroupCountsKept` | pkg/manager/internal.go:692-700 | the wait-group counter is the number of launches that have not ended, at every step |
| `ManagerRuns.QuietAfterDrainKept` | pkg/manager/internal.go:551-574 | once the group drained under the lock, no step but a metrics launch starts anything |
| `ManagerRuns.CacheProgressKept` | pkg/manager/internal.go:623-642 | how far launching and waiting for caches has come, kept by every step |
| `ManagerRuns.CachesFirstKept` | pkg/manager/internal.go:576-642 | every step keeps caches synced before whatever needs them |
| `ManagerRuns.WebhookOrderKept` | pkg/manager/internal.go:576-605 | every step keeps the order of webhook servers and caches that the first section decided |
| `ManagerRuns.ElectedKept` | pkg/manager/internal.go:478-489 | every step keeps the leader section closed, where there is an election, until it was won |
| `ManagerRuns.InvariantOfReachable` | pkg/manager/internal.go:435-642 | all of these hold in every reachable state |
| `ManagerRuns.NoRunnableRunsAtCancel` | pkg/manager/internal.go:538-574 | in every interleaving, when leader election is about to be cancelled no registered runnable is running (at most a metrics server), and the lock is held with registration closed |
| `ManagerRuns.LeadersOnlyWhenElected` | pkg/manager/internal.go:478-489 | in every interleaving with leader election, whatever needs it was launched only after the election was won |
| `ManagerRuns.ReturnsOnlyIf` | pkg/manager/internal.go:504-574 | for every configured grace period, a started manager returns only if the period is zero, by configuration or since an election that had begun was lost, or it was bounded and ran out, or the group drained under the lock, nothing but a metrics server is running and the election, if there is one, was cancelled |
| `ManagerRuns.LaunchLaw` | pkg/manager/internal.go:194-225 | in every reachable state leader-election runnables were launched exactly once each if `startedLeader` and never otherwise; caches exactly those of the start, once; non-leader runnables once each plus once more for each added in the window |
| `ManagerRuns.LaunchedOnceIffNoWindow` | pkg/manager/internal.go:576-605 | after its section, each non-leader runnable was launched exactly once if and only if none was added between `started` and that section, which cannot happen if the section came first |
| `ManagerRuns.CachesAtStart` | pkg/manager/internal.go:623-642 | the caches that count are all those registered when `started` is set, from then on for good |
| `ManagerRuns.CachesSyncFirst` | pkg/manager/internal.go:576-642 | any launch of a runnable that is no webhook server and no cache comes after the launch and then the returned sync wait of every such cache |
| `ManagerRuns.WebhooksFirstIff` | pkg/manager/internal.go:576-605 | all webhook servers known to their section precede every cache launch if and only if that section entered first, or there are none, or there are no caches |
| `ManagerRuns.WebhookAfterCacheRun` | pkg/manager/internal.go:576-621 | a run in which a webhook server known to its section does not precede the caches |
| `ManagerRuns.DoubleLaunchRun` | pkg/manager/internal.go:205-222 | a run in which one registration is launched twice |
| `ManagerRuns.LaunchAfterCancelIff` | pkg/manager/internal.go:551-642 | in every reachable state about to cancel leader election, some continuation launches members of a group if and only if the section that launches them has not finished and its list is not empty, for leader-election runnables, for the others, and for caches if `started` is unset |
| `ManagerRuns.LaunchAfterCancelRun` | pkg/manager/internal.go:551-621 | for a runnable of either list, a run to a moment of cancellation after which it can still be launched |
| `ManagerRuns.MetricsAtCancelRun` | pkg/manager/internal.go:361-395 | a run in which the metrics server is running when leader election is cancelled |
| `ManagerStop.AllEnd` | pkg/manager/internal.go:517-533 | during a stop everything launched can end, failures included, since their errors are received |
| `ManagerStop.LockIsFreed` | pkg/manager/internal.go:576-642 | a start section, wherever it stands, can go on to its end and give the lock back |
| `ManagerStop.CanAlwaysReturn` | pkg/manager/internal.go:504-574 | from every reachable state some continuation lets the manager return and, unless its grace period is zero, with everything ended and the election, if there is one, cancelled |
| `ManagerStop.ErrorsAreReceived` | pkg/manager/internal.go:491-533 | a launch that failed stays in the wait group until its error is received, by Start, which then stops, or by the stop procedure while it goes on |
| `ManagerStop.FailureStops` | pkg/manager/internal.go:491-502 | in every reachable state of a started manager whatever runs can fail, and that stops the manager |
| `ManagerStop.LossStopsAtOnce` | pkg/manager/internal.go:650-660 | an election that has begun can be lost at any time, won or not, and the manager then returns without waiting for anything |
| `ManagerStop.NothingBeforeStart` | pkg/manager/internal.go:435-489 | in every reachable state before Start nothing was launched, served or elected |
| `ManagerStop.EngagesOnlyWithTime` | pkg/manager/internal.go:534-540 | registration is closed only by the stop procedure, with the lock free and a grace period |
| `ManagerStop.NoTimeNoEngagement` | pkg/manager/internal.go:534-540 | in every run without a grace period registration is never closed |
| `ManagerStop.ServersCanLaunch` | pkg/manager/internal.go:361-433 | a started manager can launch its probe server while nobody holds the lock and its metrics server at any time |
| `Logger.NewDelegatingLogger` | pkg/log/deleg.go:209-216 | a logger that uses the given one and waits on a fresh promise without options, alone in its tree |
| `Logger.DelegatingLogger.Derive` | pkg/log/deleg.go:151-196 | after fulfilment the derivation is made on the real logger; before it, a new logger uses the current one, its fresh promise carries just this derivation and is the last child of ours, and the whole tree up to the root stays a tree |
| `Logger.DelegatingLogger.Fulfill` | pkg/log/deleg.go:201-205 | every logger that hangs from the one fulfilled, root or not, becomes what the options from there down to it make of the actual logger, and none waits any longer; all other loggers, and one without a promise, are left alone |
| `Logger.LoggerPromise.Derive` | pkg/log/deleg.go:37-75 | a new logger and its promise, with just this derivation, which becomes the last child here |
| `Logger.LoggerPromise.Adopt` | pkg/log/deleg.go:37-75 | the new promise becomes the last child, and the whole tree has grown by it |
| `Logger.LoggerPromise.Settle` | pkg/log/deleg.go:78-94 | the promise's own logger becomes its parent's with its name, tags and level, and stops waiting; what was settled stays so |
| `Logger.LoggerPromise.Fulfill` | pkg/log/deleg.go:78-99 | all that hangs from the promise, at any depth, is settled, and what was settled stays so |
| `Logger.GoalIsChain` | pkg/log/deleg.go:37-99 | what a promise is settled to is the chain of derivations from the root down to it |
| `Logger.ChainCommutes` | pkg/log/deleg.go:37-99 | any chain of derivations fulfilled afterwards equals the chain made on the concrete logger, given the two identities |
| `Logger.CommutesIffIdentities` | pkg/log/deleg.go:78-99 | fulfilment commutes with all chains if and only if `V(0)` and empty `WithValues` are identities |
| `LoggerRuns.InvariantKept` | pkg/log/deleg.go:37-99 | every step of a derivation or of the traversal keeps the tree, the locks and the coverage of the traversal |
| `LoggerRuns.ParentDonePublished` | pkg/log/deleg.go:78-99 | once a promise was fulfilled nobody can still be constructing a logger below it |
| `LoggerRuns.NoPromiseMissed` | pkg/log/deleg.go:78-99 | in every interleaving of one traversal with any derivations, when the traversal ended every logger ever derived has no promise and holds the concrete logger with its whole chain of derivations, and no derivation is in flight |
| `LoggerRuns.InitialUntilDone` | pkg/log/deleg.go:101-109 | in every interleaving a logger that fulfilment has not reached uses the initial logger |
| `LoggerRuns.CanAlwaysFulfill` | pkg/log/deleg.go:78-99 | from every state of every run the derivations in flight can be completed and fulfilment begin, if it has not, and end |
| `LoggerRuns.CanAlwaysDerive` | pkg/log/deleg.go:151-196 | from every state of every run another logger can be derived from any complete one that fulfilment has not reached, with its own promise and the initial logger |
| `LoggerRuns.DerivedEarlyOrLate` | pkg/log/deleg.go:37-99 | and, with the identities, that logger is the same as if all derivations had been made afterwards |
| `Informers.SpecificInformersMap.constructor` | pkg/cache/internal/informers_map.go:49-70 | an empty map that is not started |
| `Informers.SpecificInformersMap.Start` | pkg/cache/internal/informers_map.go:136-154 | runs each entry once, in any map order, and marks the map started |
| `Informers.SpecificInformersMap.AddInformerToMap` | pkg/cache/internal/informers_map.go:204-248 | returns the existing entry or creates one, run exactly if started; an informer that cannot be created changes nothing |
| `Informers.EnsureWellFormed` | pkg/cache/internal/informers_map.go:204-248 | adding an entry keeps every informer under one kind, run once if started |
| `Informers.InvariantKept` | pkg/cache/internal/informers_map.go:136-248 | every step of Get and Start keeps that, and what callers hold is what the map holds |
| `Informers.EntriesNeverReplaced` | pkg/cache/internal/informers_map.go:178-248 | from any moment of any run on, the entry of a kind stays the same |
| `Informers.OneInformerPerKindRunOnce` | pkg/cache/internal/informers_map.go:136-248 | in every run each informer ever created belongs to exactly one kind and was run exactly once if started, never otherwise |
| `Informers.AnswersAgree` | pkg/cache/internal/informers_map.go:178-202 | any two callers of Get for a kind got the same entry, and an answer that says started is a synced informer |
| `Informers.AnswersAfterStartAreSynced` | pkg/cache/internal/informers_map.go:178-202 | in every run from a started map without calls in flight, every answer since then says started and is a synced informer |
| `Informers.NoAnswerStartedBefore` | pkg/cache/internal/informers_map.go:178-202 | in every run, as long as the map is not started no answer says that it is |
| `Informers.CallsBegin` | pkg/cache/internal/informers_map.go:178-190 | only a call itself begins it, for its kind, and it finds the entry, with the state of the map, exactly if there is one |
| `Informers.MapChanges` | pkg/cache/internal/informers_map.go:136-248 | a map is started by Start, for good, and gains entries only where one could be created |
| `Informers.HoldingIsSteady` | pkg/cache/internal/informers_map.go:178-202 | what a call holds stays the same until it ends |
| `Informers.CallsEnd` | pkg/cache/internal/informers_map.go:184-202 | a call ends exactly by returning what it holds, or, without answer or effect, when its informer could not be created or when it gives up a wait that only a started map asks for |
| `Informers.SyncedAreRunning` | pkg/cache/internal/informers_map.go:136-154 | in every run only informers that were run are synced |
| `Informers.EveryCallCanReturn` | pkg/cache/internal/informers_map.go:178-202 | from every state of every run each call can go on to return the entry of its kind |
| `CacheReader.IndexValues` | pkg/cache/informer_cache.go:180-217 | the keys of an object, doubled if namespaced; the extractor's slice is overwritten exactly for cluster-scoped objects |
| `CacheReader.KeysAreInjective` | pkg/cache/internal/cache_reader.go:195-200 | for proper namespaces a key determines namespace and value |
| `CacheReader.KeyLookup` | pkg/cache/informer_cache.go:180-217 | a key is among an object's keys if and only if its namespace was asked for and the value is among the extracted ones |
| `CacheReader.ReindexingItsOwnKeys` | pkg/cache/informer_cache.go:195-214 | indexing the overwritten slice again gives the same keys if and only if it is empty |
| `CacheReader.Select` | pkg/cache/internal/cache_reader.go:129-157 | the matching ones among the first objects scanned, up to the limit |
| `CacheReader.List` | pkg/cache/internal/cache_reader.go:97-158 | the specified listing, with its error cases, which the following rows pin down |
| `CacheReader.ListsIffAnswerable` | pkg/cache/internal/cache_reader.go:104-113 | with or without a limit, a list fails exactly if there is a field selector that is not a single `=` or `==` requirement, or one on a field that is not indexed, and which error it gives |
| `CacheReader.ListedIsAsked` | pkg/cache/internal/cache_reader.go:97-182 | with or without a limit, whatever is listed is stored and meets the namespace, each field requirement under its operator, on an indexed field, and the labels |
| `CacheReader.ListAgreesWithScan` | pkg/cache/internal/cache_reader.go:97-158 | without a limit a cached list, by field, namespace or neither, is exactly the scan of the stored objects by namespace, by each field requirement under its own operator, and by labels |
| `CacheReader.LimitedPrefix` | pkg/cache/internal/cache_reader.go:129-147 | in one order of iteration a limited list is where the unlimited one begins, no longer than the limit, and as long as it can be without labels |
| `CacheReader.LimitedList` | pkg/cache/internal/cache_reader.go:129-147 | in whatever order each call sees the objects, a limited list is, as a multiset, part of the unlimited one, no longer than the limit, and as long as it can be without labels |
| `CacheReader.LimitIsExactIff` | pkg/cache/internal/cache_reader.go:129-147 | a limited list has the smaller of limit and number of matches if and only if all candidates are scanned, or all scanned match, or none beyond matches |
| `CacheReader.ExactForAllCachesIff` | pkg/cache/internal/cache_reader.go:129-147 | a label selector has that in every cache if and only if it is absent, accepts all, or accepts none |
| `CacheReader.LimitMissesMatches` | pkg/cache/internal/cache_reader.go:129-147 | every selector that accepts some labels and rejects others misses matches in some cache |
| `MultiNamespace.Gather` | pkg/cache/multi_namespace_cache.go:252-285 | exactly what each cache in turn contributes for what was left of the limit, never an inner call with nothing left, part of all there is, and without labels exactly the smaller of limit and total; it fails exactly at the first cache in the order that cannot answer, with its error |
| `MultiNamespace.GotGathered` | pkg/cache/multi_namespace_cache.go:252-285 | in any order, what is contributed is part of the unlimited lists, within the limit, and a prefix that is everything or as long as the limit without labels |
| `MultiNamespace.GotIsExactIff` | pkg/cache/multi_namespace_cache.go:254-285 | with labels too, the length is the smaller of limit and number of matches if and only if the limit is used up or no inner call left a match unscanned |
| `MultiNamespace.ExactForAllMultiCachesIff` | pkg/cache/multi_namespace_cache.go:254-285 | a label selector has that for all caches, orders and limits if and only if it is absent, accepts all, or accepts none |
| `MultiNamespace.GatherAnswers` | pkg/cache/multi_namespace_cache.go:252-285 | if all caches can answer no order makes it fail, and without a limit it succeeds only then |
| `MultiNamespace.List` | pkg/cache/multi_namespace_cache.go:222-289 | dispatch by scope and namespace, unknown namespaces refused, and the gathered list behind the caller's initial items |
| `MultiNamespace.CountInAllLists` | pkg/cache/multi_namespace_cache.go:252-285 | each object is listed as often as the one big cache holds it, if asked for and in a configured namespace, else never |
| `MultiNamespace.UnlimitedListIsOneBigList` | pkg/cache/multi_namespace_cache.go:222-289 | for any map order the unlimited list is, as a multiset, that of one cache of everything restricted to the configured namespaces |
| `MultiNamespace.LimitedLengthForAnyOrder` | pkg/cache/multi_namespace_cache.go:254-285 | without labels a limited list has exactly the smaller of limit and number of matches, for any map order, and holds only matches |
| `FakeStore.Build` | pkg/client/fake/client.go:120-145 | panics exactly if a key is given twice; otherwise holds all initial objects, with the update policy of the kind |
| `FakeStore.LoadsIffDistinct` | pkg/client/fake/client.go:149-178 | objects load if and only if their keys are distinct, and then the store holds each, unchanged but for a missing version, and nothing else |
| `FakeStore.LoadedStore` | pkg/client/fake/client.go:149-178 | after loading every object sits under its key, unchanged but for the version 999 where it had none |
| `FakeStore.FakeClient.Add` | pkg/client/fake/client.go:149-178 | the object is stored with its version, or 999, otherwise unchanged, and is refused for a key that is there |
| `FakeStore.FakeClient.CreateObject` | pkg/client/fake/client.go:180-200 | the specified creation: refused with a version or an existing key, otherwise stored at the first version |
| `FakeStore.FakeClient.UpdateObject` | pkg/client/fake/client.go:202-259 | the specified update: create-on-update, unconditional update, conflict, counting up, removal once deleted and unheld |
| `FakeStore.FakeClient.DeleteObject` | pkg/client/fake/client.go:538-553 | the specified deletion: stamped if held by finalizers, removed if not |
| `FakeStore.FakeClient.DeleteEach` | pkg/client/fake/client.go:447-457 | the listed objects are deleted one by one up to the first that cannot be; that one, the rest and all others are untouched |
| `FakeStore.FakeClient.DeleteAllOf` | pkg/client/fake/client.go:425-459 | that, for the objects in the namespace whose labels match, in the order they are listed; objects of other namespaces or labels are untouched, and without an error each selected one is gone, if nothing held it, or stamped |
| `FakeStore.DeleteOne` | pkg/client/fake/client.go:538-553 | deleting a key that is not there is not found; deleting an object removes it or stamps it one version up, touches no other, and fails exactly when it is held and has no name or no numeric version |
| `FakeStore.UpdateStoresOrFails` | pkg/client/fake/client.go:202-259 | a failed update leaves the store alone, a stale one always fails; a successful one touches only its key and stores the given object at its new version, or removes it exactly if it is being deleted and nothing holds it |
| `FakeStore.UpdateSucceedsIff` | pkg/client/fake/client.go:208-249 | an update of a stored object succeeds if and only if it is named, the stored version is a number, and it carries that version or, for kinds that allow it, none; and when it is invalid or a conflict otherwise |
| `FakeStore.UpdateCreatesIff` | pkg/client/fake/client.go:222-231 | an update of an object that is not stored creates it at version one if and only if it is named, its kind allows it and it carries no version; and when it is not found or a bad request otherwise |
| `FakeStore.CreateSucceedsIff` | pkg/client/fake/client.go:180-200 | a creation succeeds if and only if the object is named, carries no version and is not there, and stores it at version one; otherwise nothing changes |
| `FakeStore.KindDecides` | pkg/client/fake/client.go:580-673 | for every kind, what its two tables let an update without a version do; only two kinds are in the second table but not in the first, and none whose group has a dot in its name is in either |
| `FakeStore.TestedKinds` | pkg/client/fake/client_test.go:462-542 | the promises of the tests for ConfigMap and Binding hold; the one for Lease holds of the group `coordination` but not of `coordination.k8s.io` |
| `FakeStore.EmptyVersionIsZero` | pkg/client/fake/client.go:246-254 | a stored object without a version gets version one by its next update |
| `FakeStore.UpdateCountsUp` | pkg/client/fake/client.go:202-259 | a successful update counts the version up by one modulo 2^64 and, if it carries a version, carried the stored one |
| `FakeStore.StrictGrowthIffBelowMax` | pkg/client/fake/client.go:241-250 | the version strictly grows if and only if it was below the largest 64-bit number |
| `FakeStore.CallKeepsOrder` | pkg/client/fake/client.go:180-259 | no call moves the version of a key that stays backwards |
| `FakeStore.VersionsNeverFall` | pkg/client/fake/client.go:202-259 | along any run that keeps a key, its version never falls |
| `FakeStore.WinnerMovesOn` | pkg/client/fake/client.go:202-259 | a successful versioned update was based on the stored version and leaves a strictly higher one |
| `FakeStore.AtMostOneWins` | pkg/client/fake/client.go:202-259 | in any run that keeps the key, of two updates carrying the same version at most one succeeds |
| `FakeStore.VersionWraps` | pkg/client/fake/client.go:241-250 | an update at the largest version succeeds and stores version zero |
| `Finalizers.ContainsFinalizer` | pkg/controller/controllerutil/controllerutil.go:375-383 | true exactly for members |
| `Finalizers.AddFinalizer` | pkg/controller/controllerutil/controllerutil.go:352-360 | appended once, unchanged if present |
| `Finalizers.RemoveFinalizer` | pkg/controller/controllerutil/controllerutil.go:363-372 | all occurrences removed, the rest in order, although the list shrinks under the loop |
| `Finalizers.Registry.constructor` | pkg/finalizer/finalizer.go:38-40 | no finalizers registered |
| `Finalizers.Registry.Register` | pkg/finalizer/finalizer.go:42-48 | a key can be registered once, never replaced |
| `Finalizers.Registry.Finalize` | pkg/finalizer/finalizer.go:50-79 | the specified round over the registered keys, in any map order |
| `Finalizers.UpdatedIff` | pkg/finalizer/finalizer.go:56-76 | for any callbacks and order, the update flag is set if and only if a key was added, a finalizer succeeded, or one failed and reported a change |
| `Finalizers.StatusUpdatedIff` | pkg/finalizer/finalizer.go:61-74 | the status flag is set if and only if a finalizer that ran, failing or not, reported a status change |
| `Finalizers.ErrorsIff` | pkg/finalizer/finalizer.go:60-78 | an error is reported for exactly the keys whose finalizer ran and failed, and exactly those whose finalizer ran without error succeeded |
| `Finalizers.LastRunStays` | pkg/finalizer/finalizer.go:60-75 | but for its finalizers, the object is left as the last finalizer that ran left it, failing or not |
| `Finalizers.RoundAdds` | pkg/finalizer/finalizer.go:50-79 | an object not being deleted only gains the registered keys it lacks, and no finalizer runs |
| `Finalizers.ShrinksWhileDeleting` | pkg/finalizer/finalizer.go:50-79 | while the deletion stamp is there, a round only removes from the list |
| `Finalizers.LostOnlyBySuccess` | pkg/finalizer/finalizer.go:50-79 | a key leaves the list only if its finalizer returned success, which only happens during deletion and for held keys |
| `Finalizers.SucceedsOrStays` | pkg/finalizer/finalizer.go:50-79 | during deletion each held key either succeeds and goes or fails, with an error, and stays |
| `Finalizers.CleanRoundEmptiesList` | pkg/finalizer/finalizer.go:50-79 | a round covering the list empties it if and only if it reports no error |
| `DeletionRuns.DeleteIsReadThenWrite` | pkg/client/fake/client.go:538-553 | the read and the write of a delete, with nothing in between, are the delete of the client |
| `DeletionRuns.InvariantAtStart` | pkg/client/fake/client.go:120-178 | the invariant holds of every store a client is built with |
| `DeletionRuns.InvariantKept` | pkg/finalizer/finalizer.go:50-79 | every step keeps: a round that was not overtaken knows the stored object, and what it is about to drop has succeeded on what it read; only creations and writes past the largest version need that nobody else is about to write the key at a version that can come back |
| `DeletionRuns.DroppedOnlyAfterSuccess` | pkg/finalizer/finalizer.go:50-79 | a write, or another harmless step, drops a stored finalizer, with or without the object, only if that finalizer returned success on the very object stored, while it was being deleted |
| `DeletionRuns.LeavesOnlyAfterSuccess` | pkg/finalizer/finalizer.go:50-79 | over every run of deletes, creations and concurrent read-finalize-write and read-edit-write rounds, given up or not, whose creations, removals and wraps are harmless, a finalizer that is no longer held was taken off, the last time, by a step before which it had succeeded on the object as stored |
| `DeletionRuns.AtomicDeletesLeaveAfterSuccess` | pkg/finalizer/finalizer.go:50-79 | the same for all runs in which removals come right after their reads, with no guard on them |
| `DeletionRuns.CleanRoundRemoves` | pkg/finalizer/finalizer.go:50-79 | an undisturbed round over a deleted object removes it from the store if and only if no finalizer failed |
| `DeletionRuns.RoundRemoves` | pkg/finalizer/finalizer.go:50-79 | whatever else is in flight, a deleted object can be read, finalized and written back, and is then gone if and only if no finalizer failed |
| `DeletionRuns.RecreationIff` | pkg/client/fake/client.go:180-259 | from any such state in which a key is gone, some creation of it lets a harmless run lead to a write that takes away a finalizer that never succeeded if and only if somebody is still about to write the key at a version from one up, as the store prints it |
| `DeletionRuns.WrapIff` | pkg/client/fake/client.go:241-250 | a round that knows an object at the largest version can, by some write, lead there if and only if somebody else is still about to write the object at a version as the store prints it |
| `DeletionRuns.AwaitedArises` | pkg/client/fake/client.go:538-553 | such a pending write arises from every object at such a version that nothing holds |
| `DeletionRuns.UntouchedRemovalIsHarmless` | pkg/client/fake/client.go:538-553 | a delete that finds the object as it read it takes no finalizer away |
| `DeletionRuns.RemovalCanBetrayIff` | pkg/client/fake/client.go:538-553 | a pending removal of a named key takes a finalizer away before its time in some harmless continuation if and only if the key is not frozen: stored, held only by finalizers that succeeded on it, at a version that is not a number |
| `DeletionRuns.AtomicDeletesAreHarmless` | pkg/client/fake/client.go:538-553 | a run whose removals come right after their reads is harmless if its creations are |
| `Conversion.ObjectGVKs` | pkg/webhook/conversion/conversion.go:278-299 | all versions of the kind, or the error for unregistered and for ambiguous types |
| `Conversion.Classify` | pkg/webhook/conversion/conversion.go:237-254 | hubs, spokes and others of a kind, each complete and in order |
| `Conversion.IsConvertible` | pkg/webhook/conversion/conversion.go:226-275 | true exactly for one hub with all other versions spokes, false exactly when nothing is implemented or there is one version, a partial-implementation error exactly otherwise |
| `Conversion.GetHub` | pkg/webhook/conversion/conversion.go:176-201 | the one hub, none, or an error for several |
| `Conversion.ConvertViaHub` | pkg/webhook/conversion/conversion.go:152-173 | the specified two-step conversion with each of its errors |
| `Conversion.ConvertObject` | pkg/webhook/conversion/conversion.go:125-150 | the specified conversion in all of its cases |
| `Conversion.HandleConvertRequest` | pkg/webhook/conversion/conversion.go:92-120 | all objects converted in order, each into the group and version asked for and its own kind, or the first error |
| `Conversion.AnsweredIff` | pkg/webhook/conversion/conversion.go:98-113 | an object of a request fails as unregistered exactly if its version or the one asked for is, and is converted only within its group |
| `Conversion.ConvertsInKind` | pkg/webhook/conversion/conversion.go:125-135 | a conversion succeeds only within one group and kind and into another version, and yields that version |
| `Conversion.ConvertibleIsTotal` | pkg/webhook/conversion/conversion.go:226-275 | if a kind is convertible and each type has one version, conversion between any two versions fails only in user code |
| `Conversion.WorksIff` | pkg/webhook/conversion/conversion.go:125-173 | two versions convert, up to user failures, if and only if one is a hub and the other convertible, or both are convertible, there is exactly one hub and the source type is registered under no other version |
| `Conversion.NothingConverts` | pkg/webhook/conversion/conversion.go:226-275 | where nothing is to convert, no version converts into another |
| `Conversion.TotalIffConvertible` | pkg/webhook/conversion/conversion.go:125-275 | all versions convert into each other, up to user failures, if and only if the kind is convertible or has several hubs, at most one version that is no hub, at most one that does not convert itself and none that is neither |
| `Conversion.FindHub` | pkg/webhook/conversion/conversion.go:183-198 | the one hub among the versions, none, or that there are several |
| `Conversion.ConvertIsThroughHub` | pkg/webhook/conversion/conversion.go:125-173 | all cases of conversion are one way into the hub followed by one way out |
| `Conversion.DetourChangesNothing` | pkg/webhook/conversion/conversion.go:125-173 | with inverse conversions A to B to C equals A to C, errors included |
| `Conversion.RoundTrip` | pkg/webhook/conversion/conversion.go:125-173 | with inverse conversions A to B to A is the identity |
| `ChannelSource.ShouldHandle` | pkg/source/source.go:249-260 | true exactly if all predicates accept |
| `ChannelSource.InvariantKept` | pkg/source/source.go:217-307 | every step of registering, distributing, consuming and stopping keeps the state of each destination |
| `ChannelSource.ReceivesItsRun` | pkg/source/source.go:217-307 | in every run a destination got exactly the contiguous run of events distributed since it joined, in order and once each, its consumer handled exactly the accepted ones among those it took, and its buffer is within capacity |
| `ChannelSource.HandledIff` | pkg/source/source.go:246-262 | in every run an event that was read was handled if and only if every predicate accepts it |
| `ChannelSource.EveryEventCanArrive` | pkg/source/source.go:246-307 | from every state of every run the loop can go on until it gives the lock back and all consumers until they have read, and handled if accepted, every event taken since they joined |
| `ChannelSource.CanTakeMore` | pkg/source/source.go:243-307 | from every state of every run in which somebody is registered and the source is not stopping, the loop can go on to take any event next |
| `ChannelSource.NeverPanics` | pkg/source/source.go:267-307 | no run sends on a closed destination or closes one twice, and the loop only runs once there is a destination |
| `ChannelSource.JoinedStays` | pkg/source/source.go:276-288 | the place where a destination joined never changes and what it received only grows |
| `ChannelSource.JoinsAtTheEnd` | pkg/source/source.go:239-241 | a registration leaves the others alone and starts with the next event, empty, open, and with a buffer of the requested size, or 1024 |
| `ChannelSource.Channel.constructor` | pkg/source/source.go:178-198 | a channel where the machine begins: no destinations, no loop, no events |
| `ChannelSource.Channel.InjectStopChannel` | pkg/source/source.go:208-214 | a stop channel is set only where there was none |
| `ChannelSource.FirstStopIsKept` | pkg/source/source.go:208-214 | after any injections the stop channel is the first that was not nil, or there is none if all were |
| `ChannelSource.Channel.Start` | pkg/source/source.go:217-265 | refused without source or stop channel and then without effect; otherwise the registration of the machine, joining after all events so far with the chosen or default buffer; the first one launches the loop, one on a stopped source does not |
| `ChannelSource.Channel.Distribute` | pkg/source/source.go:276-288 | takes the event and sends it on as the machine does, to all destinations or up to the first full buffer, or panics on a closed one |
| `ChannelSource.Channel.Resume` | pkg/source/source.go:280-287 | the same from where a full buffer blocked it |
| `ChannelSource.Channel.Receive` | pkg/source/source.go:246-262 | one receive of the machine: the oldest event leaves the buffer and is handled exactly if all predicates accept it |
| `ChannelSource.DistributeIsARun` | pkg/source/source.go:276-288 | distributing is a run of the machine that keeps the invariant and ends with all served or at an open, full destination |
| `ChannelSource.StopIsARun` | pkg/source/source.go:267-274 | stopping is a run of the machine that keeps the invariant, closes every destination, changes nothing else and ends the loop |
| `ChannelSource.Channel.DoStop` | pkg/source/source.go:267-274 | closes one destination after the other as the machine does, and stops |
| `Versions.NewerIsStrictTotalOrder` | tools/setup-envtest/versions/version.go:31-39 | newer-than is a strict total order |
| `Versions.SelectorMeaning` | tools/setup-envtest/versions/version.go:51-142 | what each selector selects, said in terms of that order |
| `Versions.ConcreteMatchesItself` | tools/setup-envtest/versions/version.go:60-140 | a selector that is concrete matches exactly its own version |
| `Versions.ConcreteIff` | tools/setup-envtest/versions/version.go:60-140 | a selector is concrete if and only if it matches exactly one version |
| `Versions.SpecHolder.MakeConcrete` | tools/setup-envtest/versions/version.go:169-172 | afterwards the spec matches exactly the given version and does not ask for the latest |
| `Versions.MatchComplete` | tools/setup-envtest/versions/parse.go:12-22 | every text of the grammar is accepted with its own groups, so the grammar is unambiguous |
| `Versions.MatchSound` | tools/setup-envtest/versions/parse.go:12-22 | no other text is accepted |
| `Versions.AcceptedIff` | tools/setup-envtest/versions/parse.go:39-123 | an expression is parsed exactly if it is a text of the grammar with numbers in range |
| `Versions.RoundTripParsed` | tools/setup-envtest/versions/version.go:185-191 | every spec an expression can denote is parsed back from its printed form |
| `Versions.PrintParseRoundTrip` | tools/setup-envtest/versions/parse.go:39-74 | for every accepted expression, printing the parsed spec and parsing again gives the same spec |
| `Versions.AnyPatchSelects` | tools/setup-envtest/versions/parse.go:24-74 | with the patch left off, `x` or `*`, an expression selects by major and minor number alone: plain and `~` that minor release, `<` and `<=` what is older |
| `Versions.PatchSelects` | tools/setup-envtest/versions/parse.go:24-74 | with a patch number it selects exactly that version, with `~` its later patches, with `<` and `<=` what is older; `!` asks for the latest |
| `Platforms.BaseNameRoundTrip` | tools/setup-envtest/versions/platform.go:35-77 | every version and word-character platform is recovered from its directory name |
| `Platforms.ArchiveNameRoundTrip` | tools/setup-envtest/versions/platform.go:40-77 | and from its archive name |
| `Platforms.BaseNameSound` | tools/setup-envtest/versions/platform.go:63-85 | a name that is read as a version and platform is their directory name |
| `Platforms.ArchiveNameSound` | tools/setup-envtest/versions/platform.go:63-85 | and likewise for archive names |
| `Platforms.BaseNamesAreInjective` | tools/setup-envtest/versions/platform.go:35-42 | directory and archive names are equal only for equal versions and platforms |
| `Platforms.NumberPanicIff` | tools/setup-envtest/versions/platform.go:63-85 | reading a name panics if and only if it is a directory name but for a number beyond 64 bits |
| `Platforms.KnownName` | tools/setup-envtest/workflows/workflows_test.go:118-123 | the directory name `1.16.0-linux-amd64`, and the archive name around it, are read as that version and platform |
| `Platforms.Words` | tools/setup-envtest/versions/platform.go:63-77 | the system and architecture of a name are made of letters, digits and underscores, so wildcards and separators make none |
| `Platforms.MatchesIffCommon` | tools/setup-envtest/versions/platform.go:19-27 | two platforms match if and only if some platform is covered by both; without wildcards, which is exactly when a platform covers only itself, if and only if they are equal |
| `EnvSelect.ItemsAreOrdered` | tools/setup-envtest/store/store.go:92-108 | the listing order, newest first and then by platform, is a strict total order |
| `Sorting.StringLessIff` | tools/setup-envtest/store/store.go:92-108 | names are compared by their first difference, a proper prefix first |
| `EnvSelect.SelectedMember` | tools/setup-envtest/store/store.go:239-267 | an item is selected exactly if the directory named for it is there and the filter matches |
| `EnvSelect.List` | tools/setup-envtest/store/store.go:92-108 | newest version first, then by system and architecture name, and a permutation of the matching items; panics exactly on a name with a number out of range |
| `EnvSelect.ListingIgnoresDirectoryOrder` | tools/setup-envtest/store/store.go:92-108 | the same items in any directory order give the same listing |
| `EnvSelect.LatestVersion` | tools/setup-envtest/env/env.go:138-161 | a remote candidate than which none is newer, or none exactly if there is no candidate |
| `EnvSelect.FirstMatching` | tools/setup-envtest/env/env.go:213-222 | the first, hence newest, listed item that matches, or none exactly if none matches |
| `EnvSelect.BestLocal` | tools/setup-envtest/env/env.go:203-222 | the newest local candidate, or none exactly if there is none |
| `EnvSelect.Env.EnsureVersionIsSet` | tools/setup-envtest/env/env.go:198-258 | on return the version and platform match the original selectors and no candidate that counts is newer: local ones if the remote is not asked, the newer of both otherwise, remote ones if a download is forced; without wildcards the platform is the one asked for; a remote choice brings its checksum; it exits exactly if there is nothing to choose, crashes exactly on an unreadable name, and then changes nothing |
| `Arguments.ArgumentSet.constructor` | pkg/internal/testing/process/arguments.go:130-134 | no arguments |
| `Arguments.ArgumentSet.Enable` | pkg/internal/testing/process/arguments.go:266-269 | whatever the defaults, the key is rendered as its bare name, and other keys keep theirs |
| `Arguments.ArgumentSet.Disable` | pkg/internal/testing/process/arguments.go:272-275 | whatever the defaults, the key is rendered as nothing, and other keys keep theirs |
| `Arguments.ArgumentSet.Append` | pkg/internal/testing/process/arguments.go:282-289 | the values passed are those passed so far, defaults included, and then the given ones; a key passed as its name stays so; other keys keep theirs |
| `Arguments.ArgumentSet.AppendNoDefaults` | pkg/internal/testing/process/arguments.go:293-300 | the same, but a key that was not set passes exactly the given values |
| `Arguments.ArgumentSet.Set` | pkg/internal/testing/process/arguments.go:304-307 | whatever the defaults, the key is rendered as one flag per given value, and other keys keep theirs |
| `Arguments.ArgumentSet.AsStrings` | pkg/internal/testing/process/arguments.go:221-251 | the rendering of all keys of values and defaults in ascending order, each once |
| `Arguments.UnsetPassesDefaults` | pkg/internal/testing/process/arguments.go:183-186 | a key that is not set passes exactly its defaults, one flag each, and nothing at all without any |
| `Arguments.OrderIsUnique` | pkg/internal/testing/process/arguments.go:221-251 | a set of keys has one ascending order |
| `Arguments.RenderingIsDeterministic` | pkg/internal/testing/process/arguments.go:221-251 | the rendering does not depend on map iteration order |
| `Arguments.SliceToArguments` | pkg/internal/testing/process/arguments.go:56-78 | the specified reading, which the following rows pin down |
| `Arguments.ReadsFlags` | pkg/internal/testing/process/arguments.go:56-78 | without a bare `--`, what does not look like a flag is left over in order, and each key holds what it held with the values given to it appended in order |
| `Arguments.LeftOver` | pkg/internal/testing/process/arguments.go:56-63 | the first bare `--` and everything after it is left over as it is |
| `Arguments.FlagsAreRead` | pkg/internal/testing/process/arguments.go:56-78 | the flags of one key are read back as its values in order |
| `Arguments.RoundTrip` | pkg/internal/testing/process/arguments.go:56-251 | rendering flags with user values and reading the strings into empty arguments restores every value list in order and leaves nothing over |

## Left out

- `Manager`: errors of dependency injection (`SetFields`) in `Add`, error values and their aggregation, log output, and the recorder's shutdown.
- `Manager`: the shutdown deadline is a step that may happen at any time once the wait began; no clock, and no fairness: that the manager returns is shown as always possible, not as inevitable.
- `Manager`: one `Start` and at most one election callback, as the documentation asks; the elector is only its callbacks. A custom `onStoppedLeading` is not modelled.
- `Manager`: `ServeMetrics` and `ServeProbes` may happen any number of times, a superset of the code.
- `LoggerRuns`: one traversal; a second `Fulfill` of the same logger is not modelled. `Enabled`, `Info` and `Error` only forward.
- `CacheReader`: the client-go indexer is taken by its contract, the stored objects for which the index function yields the key. Deep copies and type checks of list elements are not modelled. `Get` is left out as a plain lookup.
- `CacheReader.ListAgreesWithScan`: namespaces contain no slash and are not the name reserved for all of them; Kubernetes names satisfy this.
- `MultiNamespace`: `Get`, `IndexField` and the informers only dispatch; resource versions of lists are left out.
- `Informers`: informers are numbers; the shared informer is its run and its sync. Start is called once. List-watch creation is left out.
- `FakeStore`: one kind per store; reflection, JSON and the object tracker are the map. `Patch`, `Get`, `List`, `Watch` and dry-run options, and the accessor errors of `Add`, are left out.
- `DeletionRuns.LeavesOnlyAfterSuccess`: callbacks keep the object's key, version and finalizer list; writers send the version they read, so unconditional updates are left out; creations, removals and wraps are harmless, since the statement is otherwise false.
- `Finalizers`: aggregated errors are a list; owner references, `CreateOrUpdate` and `CreateOrPatch` are left out.
- `Conversion`: types are told apart by name and carry one payload string; decoding, allocation and JSON are the scheme lookups. Copying list and object metadata and the HTTP handler are left out.
- `ChannelSource`: the machine covers blocking sends, buffers and the lock; the work queue and handlers are the list of handled events. `Kind`, `Informer` and `Func` sources are left out.
- `EnvSelect`: the remote index is a given list, newest first, as the client sorts it; checking checksums, downloads, side-loading, `PathMatches` and the file system are left out.
- `Arguments`: `FuncArg`, `SetRaw` and the template functions are left out.
- REST, discovery, metadata and unstructured clients, the admission and authentication webhooks, certificates, metrics, zap, configuration, the builder, the work queue of controllers, the dynamic REST mapper and envtest's processes are not part of this model: wiring, input and output, or code outside the repository.
