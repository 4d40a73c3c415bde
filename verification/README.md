# DOCA platform: a model of its stateful cores, with proofs

This project models, in Dafny, the parts of the DOCA platform (DPF) whose behaviour is hardest to
see from the code, and proves what they promise for all inputs, all runs and all interleavings.

- **Connections to DPU clusters** (`pkg/dpucluster`). Controllers register one disconnect source
  each while callers race (`DisconnectRegistry`), the source buffers requests until a queue is there
  (`RequestSource`), one reconciler per cluster connects, checks and drops connections while other
  goroutines add watches (`Health`, `Accessor`, `ClusterCache`, `ClusterCacheRuns`, `ClusterDrops`,
  `RemoteCache`), a dropped connection leads to requests for the controllers that watched it
  (`DisconnectDelivery`), and failed checks back off (`Backoff`).
- **The status tree of dpfctl** (`internal/dpfctl`). Three maps describe a tree that is grouped and
  pruned in place (`TreeShape`, `TreePruning`, `TreeObjects`, `TreeSpec`, `GroupNames`,
  `TreeGrouping`, `TreeRows`, `TreeRowSteps`, `TreeFrames`, `TreeNames`, `ObjectTree`,
  `PruneTheorems`).
- **The Open vSwitch client** (`pkg/ovsutils`). Clients plan transactions on snapshots that may be
  out of date; the server runs them with the garbage collection of RFC 7047 (`OvsDatabase`,
  `OvsClient`, `OvsRuns`, `OvsTheorems`, `OvsOutcomes`, `OvsLostPort`, `OvsCode`).
- **Smaller stateful cores**: persistent MAC addresses of virtual functions (`VfMac`), the Ready
  summary of conditions (`Conditions`) and the two-source interface resolver
  (`InterfaceCandidates`, `InterfaceResolver`).

Concurrent code is a state machine with one step per critical section; what it promises is proved of
every state of every run. Objects that are updated in place are classes whose methods are proved
against the functions that the state machines and theorems use. Time, randomness, the network, the
answers of the API server and the order in which Go visits a map are parameters or left open, so the
theorems hold for all of them. `dafny verify dfyconfig.toml` checks the whole project.

## What the code turns out to do

- `createConnection` (`pkg/dpucluster/accessor_client.go:66-75`) leaves a started cache running, with
  no owner, if the discovery client cannot be created afterwards. `LeakExample` gives the run, and
  `LeakedIffDiscoveryFailed` shows that this is the only way a cache outlives its connection.
- `createAccessor` is documented to overwrite an existing accessor (`pkg/dpucluster/cache.go:484-485`).
  It never does: `NothingOverwritten`.
- `AddPort` (`pkg/ovsutils/ovs.go:295-407`) reports success without having created anything if the
  bridge it had read is gone when its transaction runs: the new rows are collected as garbage.
  `AddPortLostExample` gives the interleaving, `AddPortSucceedsVacuously` the exact condition.
- `mutateOVSMapField` sets a key exactly if the row still agrees with the value that was read, in the
  sense of `Settles`; with a stale read it may silently leave a key as it is. `MapUpdate` has both
  directions, `StaleReadExample` the row, the read and the desired map.
- Grouping in dpfctl accepts any group as a sibling, and visits siblings in the order of their kinds
  (`internal/dpfctl/tree.go:173-220`). If the first match is a group of another kind, its item names
  are lost, even if the object's own group is there: `NamesLostExample` gives a tree with a group of
  DPUs and one of DPU nodes. `AddKeepsNamesIff` has the exact condition on the tree before the call.
- `Add` keeps the tree valid exactly if the object stays under its parent, or is new and its parent is
  not below it: `InsertAgrees`, `InsertValid`, with the inputs in `TwoParentsExample` and
  `CycleExample`. After an object was added under a second parent, removing it leaves the first parent
  with a child that is no longer there: `ReparentedDanglesIff`.
- The health backoff panics for intervals of 1 to 4 nanoseconds, and for no others:
  `DrawsIffAtLeastFive`.
- An empty MAC address in the config file passes the check on loading, but makes every run that finds
  its VF fail, and the file stays as it is: `EmptyAddressBlocks`.
- The comment in `SetSummary` speaks of any stale condition (`pkg/conditions/conditions.go:175`). The
  code ignores stale conditions that are True; the model follows the code.
- An interface entry can resolve without being listed, if two shards hold an entry of its name:
  `ResolvedButNotListed`, and the exact conditions in `ResolvedEntryIsListedIff` and
  `ResolvedOldOneIsListedIff`.

## Model

| member | source | states |
|---|---|---|
| `RequestSources.RequestSource.Start` | pkg/dpucluster/cache.go:351-363 | Starting with a queue hands over everything buffered, in order; starting with none is an error and changes nothing |
| `RequestSources.RequestSource.Add` | pkg/dpucluster/cache.go:367-377 | Requests go to the current queue, or to the buffer before the first start |
| `RequestSources.Conservation` | pkg/dpucluster/cache.go:343-377 | After any sequence of calls, what queues received followed by what is buffered is exactly what was added, in order: nothing lost, doubled or reordered |
| `RequestSources.Routing` | pkg/dpucluster/cache.go:343-377 | Which queue got which request: the one current when it was added, or the first one ever given for those added before |
| `DisconnectRegistry.StepKeepsInv` | pkg/dpucluster/cache.go:535-582 | Every critical section of registration, waiting, enqueueing and starting keeps the invariant of the registry |
| `DisconnectRegistry.InvAlways` | pkg/dpucluster/cache.go:535-582 | The invariant holds in every state of every interleaving of any number of callers |
| `DisconnectRegistry.OneRegistrationPerController` | pkg/dpucluster/cache.go:535-564 | Per controller at most one registration is in flight or has succeeded |
| `DisconnectRegistry.ReturnedSource` | pkg/dpucluster/cache.go:535-582 | A call that got a source, whether it has added its requests yet or not, got the one whose Watch succeeded for its controller and that is in the map |
| `DisconnectRegistry.SameSourceForAll` | pkg/dpucluster/cache.go:531-564 | Two calls that got a source, at any time, got the same one exactly if they are for the same controller |
| `DisconnectRegistry.OwnerFindsItself` | pkg/dpucluster/cache.go:547-559 | When Watch returns, the owner finds its own setup in the map and its channel not closed yet |
| `DisconnectRegistry.FailureFreesController` | pkg/dpucluster/cache.go:555-562 | After a failed Watch the next caller registers afresh |
| `DisconnectRegistry.OutcomeIsFinal` | pkg/dpucluster/cache.go:552-559 | Once its channel is closed a registration never changes again |
| `DisconnectRegistry.WaiterReportsItsSetup` | pkg/dpucluster/cache.go:568-582 | From when a call waits on a setup to when it returns, its result is that setup's error or source |
| `DisconnectRegistry.OwnerReportsWatch` | pkg/dpucluster/cache.go:552-563 | The error of Watch is what the registration ends with and what its owner returns |
| `DisconnectRegistry.WaitersReportWatch` | pkg/dpucluster/cache.go:568-582 | Every call waiting when Watch ends returns the error of Watch, or the source unless it is for another type of request |
| `DisconnectRegistry.NotAKey` | pkg/dpucluster/cache.go:585-593 | A watcher that cannot be a key is refused at once and nothing is registered |
| `DisconnectRegistry.CallsReturnInBoundedSteps` | pkg/dpucluster/cache.go:535-582 | In any stretch of any run calls move at most as often as those there have steps left, plus twice per call invoked meanwhile |
| `DisconnectRegistry.NoCallIsStuck` | pkg/dpucluster/cache.go:568-582 | While a call has not returned some call can move; a waiter can wake, or its owner can finish |
| `DisconnectRegistry.OneSourcePerController` | pkg/dpucluster/cache.go:531-564 | Requests added to the source of a successful registration are exactly those of the calls for its controller |
| `DisconnectRegistry.DisconnectsAreDelivered` | pkg/dpucluster/cache.go:602-612 | What a controller's queues and its source hold is exactly what disconnects enqueued for that controller, in order |
| `DisconnectRegistry.StartedSource` | pkg/dpucluster/cache.go:351-377 | Once started, a source has the queue of its latest start and buffers nothing any more |
| `DisconnectRegistry.Registry.EnterRegistration` | pkg/dpucluster/cache.go:535-550 | The first critical section does the registry's enter step |
| `DisconnectRegistry.Registry.FinishRegistration` | pkg/dpucluster/cache.go:552-563 | The second critical section does the registry's finish step |
| `DisconnectRegistry.Registry.WaitForRegistration` | pkg/dpucluster/cache.go:568-582 | Waiting gives the setup's error, or its source |
| `HealthChecks.HealthServer.constructor` | pkg/dpucluster/health.go:57-73 | A new health server has no failures and an unknown status |
| `HealthChecks.HealthServer.Check` | pkg/dpucluster/health.go:79-96 | One check counts a failure, resets on success, and reports the last error without probing once retries are used up |
| `HealthChecks.CheckTracks` | pkg/dpucluster/health.go:79-96 | One check keeps the counter equal to the number of failures since the last success |
| `HealthChecks.ChecksTrack` | pkg/dpucluster/health.go:79-96 | Over any run of checks the counter is the number of failures since the last success, and an error is reported exactly when it is maxRetries + 1 |
| `HealthChecks.ErrorsStay` | pkg/dpucluster/health.go:80-82 | Once reported, the error is reported for good and no probe is made any more |
| `HealthChecks.ErrorIffExhausted` | pkg/dpucluster/health.go:79-82 | A check reports an error exactly after maxRetries + 1 failures in a row |
| `HealthChecks.ErrorIsLastAnswer` | pkg/dpucluster/health.go:79-87 | The error reported is the answer to the last probe made, and that probe and the maxRetries ones before it failed |
| `Accessors.AccessorObject.SetState` | pkg/dpucluster/accessor.go:96-107 | A new connection has the given cache, no watches and a fresh health server |
| `Accessors.AccessorObject.HealthCheck` | pkg/dpucluster/accessor.go:109-122 | A check on a connection does the health server's check; without one it is an error |
| `Accessors.AccessorObject.Disconnect` | pkg/dpucluster/accessor.go:136-146 | The cache is cancelled once and every watch is returned once; nothing happens without a connection |
| `Accessors.AccessorObject.Watch` | pkg/dpucluster/accessor.go:166-203 | An informer is started only for a name not running yet; the latest watcher of a name is kept; all error cases |
| `RemoteCaches.RemoteCache.GetAccessor` | pkg/dpucluster/cache.go:496-505 | The accessor of the cluster, if there is one |
| `RemoteCaches.RemoteCache.CreateAccessor` | pkg/dpucluster/cache.go:486-493 | A fresh, unconnected accessor is filed under the cluster and no other changes |
| `RemoteCaches.RemoteCache.DeleteAccessor` | pkg/dpucluster/cache.go:509-521 | The accessor leaves the map, is disconnected and its watches are returned; other clusters are not touched |
| `RemoteCaches.RemoteCache.Watch` | pkg/dpucluster/cache.go:637-643 | Succeeds exactly if the cluster is connected and the name is running or its informer starts, and then keeps the watcher |
| `RemoteCaches.RemoteCache.Connect` | pkg/dpucluster/cache.go:429-449 | Gets the accessor, or creates it for a ready cluster, and connects it if it is not; what is left behind if that fails |
| `RemoteCaches.RemoteCache.RegisterWatches` | pkg/dpucluster/cache.go:468-478 | Watches are registered in order up to the first that fails, the latest of a name kept |
| `RemoteCaches.RemoteCache.Reconcile` | pkg/dpucluster/cache.go:429-482 | A whole reconcile by cases: not ready or not connected; retries used up, so that the accessor goes, its cache is cancelled and its watches are to be told; or checked and watched |
| `ClusterCaches.LatestIsLast` | pkg/dpucluster/accessor.go:187-202 | Per name, the watch kept is the one accepted last |
| `ClusterCaches.StepKeepsInv` | pkg/dpucluster/cache.go:398-521 | Every step of the reconciler and of watch calls keeps the invariant of a cluster |
| `ClusterCacheRuns.InvAlways` | pkg/dpucluster/cache.go:398-521 | The invariant holds in every state of every run |
| `ClusterCacheRuns.StaleAccessorsAreDisconnected` | pkg/dpucluster/cache.go:507-521 | An accessor that is not in the map is never connected, whoever still refers to it |
| `ClusterCacheRuns.CancelledAtMostOnce` | pkg/dpucluster/accessor.go:136-146 | No cache is cancelled twice, and a cache not cancelled is held by the map's accessor, being opened, or left behind by a failed discovery client |
| `ClusterCacheRuns.Origin` | pkg/dpucluster/accessor_client.go:66-78 | Every cache was started by a connect step, whose outcome decides whether it is left behind |
| `ClusterCacheRuns.LeakedIffDiscoveryFailed` | pkg/dpucluster/accessor_client.go:66-78 | Between reconciles a cache runs without an owner exactly if the discovery client failed after it was started |
| `ClusterCacheRuns.LeakExample` | pkg/dpucluster/accessor_client.go:71-75 | A run that leaves a cache behind |
| `ClusterCacheRuns.NothingOverwritten` | pkg/dpucluster/cache.go:433-449 | No accessor and no live connection is ever overwritten, and the reconciler finds its accessor connected when it checks it and adds watches |
| `ClusterCacheRuns.InformersOnLiveCaches` | pkg/dpucluster/accessor.go:166-203 | Informers start only on the running cache of the map's accessor, and once per name |
| `ClusterCacheRuns.DroppedOnlyWhenExhausted` | pkg/dpucluster/cache.go:451-461 | A connection is dropped for its health only after maxRetries + 1 failed probes in a row on that connection |
| `ClusterDrops.CheckDecides` | pkg/dpucluster/cache.go:451-466 | In every run a check leads on to the drop exactly if the last maxRetries + 1 probes of this connection failed; otherwise it probes once and goes on to the watches |
| `ClusterDrops.ExhaustedIsDropped` | pkg/dpucluster/cache.go:453-461 | After such a check the next step of the reconciler takes the accessor out of the map and cancels its cache, whatever watch calls do in between |
| `ClusterDrops.EntryChanges` | pkg/dpucluster/cache.go:421-440 | The map gets an accessor exactly when one is created for a ready cluster, and loses it exactly by deletion or drop; a deletion cancels the cache once and nobody is told |
| `ClusterDrops.ConnectStarts` | pkg/dpucluster/accessor_client.go:149-168 | Which caches connecting starts and cancels, by outcome |
| `ClusterDrops.WatchGoesOn` | pkg/dpucluster/accessor.go:166-175 | A watch call gets to its locked part exactly if its name is not empty and its accessor is connected |
| `ClusterDrops.WatchTakesEffect` | pkg/dpucluster/accessor.go:177-203 | There it takes effect exactly if still connected and the name is running or its informer starts, and is then the one kept |
| `ClusterDrops.ReadyClusterConnects` | pkg/dpucluster/cache.go:433-466 | From any idle state of any run a ready cluster without an accessor can be connected |
| `ClusterDrops.FailingProbesDrop` | pkg/dpucluster/cache.go:451-461 | From any idle connected state of any run the reconciler alone can go on to a drop while every probe fails: exactly as many further failures as are missing to maxRetries + 1, no watch lost, and the latest watcher of every name told |
| `ClusterDrops.DropExample` | pkg/dpucluster/cache.go:429-461 | A run from the start to the drop: one good probe, six failed ones, and of two watchers of one name only the later one told |
| `ClusterCacheRuns.WatchersAreTold` | pkg/dpucluster/cache.go:451-461 | After a drop each watched name was told exactly once, through its latest watcher; a deletion tells nobody |
| `DisconnectDelivery.EachClusterBehaves` | pkg/dpucluster/cache.go:484-521 | However clusters interleave on the shared map of accessors and the registry, one cluster sees a run of its own |
| `DisconnectDelivery.RegistryBehaves` | pkg/dpucluster/cache.go:602-626 | The registry sees a run of its own, its calls coming from the notifiers |
| `DisconnectDelivery.StepKeepsLinked` | pkg/dpucluster/cache.go:602-626 | Every step keeps calls and told watchers in correspondence |
| `DisconnectDelivery.LinkedAlways` | pkg/dpucluster/cache.go:615-626 | In every state the calls for a lost connection are those of its watchers told so far that have a handler, in order |
| `DisconnectDelivery.CallsComeFromDrops` | pkg/dpucluster/cache.go:451-461 | Every call is for the latest watcher of a name on a dropped connection, and the only one for it |
| `DisconnectDelivery.FinishedIsSettled` | pkg/dpucluster/cache.go:602-612 | A call that has ended delivered its requests to its controller's source, or failed with the outcome of the registration |
| `DisconnectDelivery.DropReachesControllers` | pkg/dpucluster/cache.go:451-461 | From end to end: after a drop, each watched name whose latest watcher has a handler led to exactly one call, with that handler's requests for the cluster, delivered to the controller or refused with the registration's error |
| `Backoffs.WithinJitter` | pkg/dpucluster/backoff.go:58-66 | A backoff lies within the jitter around duration times factor to the power of the attempt, up to truncation |
| `Backoffs.LongerThanBefore` | pkg/dpucluster/backoff.go:43-66 | If the factor outweighs the jitter, every later attempt waits longer, whatever is drawn |
| `Backoffs.DrawsIffAtLeastFive` | pkg/dpucluster/health.go:57-73 | The random draw never panics exactly if the interval is not 1 to 4 nanoseconds |
| `Backoffs.NextCheckIsSoon` | pkg/dpucluster/health.go:100-107 | In every reachable health state the next check is in the future and within the cap |
| `Backoffs.FailureNeverShortensWait` | pkg/dpucluster/health.go:100-107 | From one failed check to the next the wait never shrinks, and grows until it meets the cap |
| `Backoffs.WaitIs` | pkg/dpucluster/health.go:100-107 | For intervals whose draw cannot panic, in whole nanoseconds: after n failures in a row the wait is nine tenths of the interval doubled n times, plus a draw below a fifth of it, or the cap if that is more than the cap |
| `Backoffs.WaitFollowsFailures` | pkg/dpucluster/health.go:100-107 | The wait is the cap if nine tenths of the doubled interval pass it, is within a tenth of the doubled interval, up to truncation, if eleven tenths do not, and differs for different draws below the cap |
| `Backoffs.FirstWait` | pkg/dpucluster/health.go:41-73 | A fresh server with the default interval waits 54 seconds plus the draw |
| `TreeSpec.InsertAgrees` | internal/dpfctl/tree.go:249-256 | Adding keeps the three maps in agreement exactly if the object is new or stays with its parent |
| `TreeSpec.InsertValid` | internal/dpfctl/tree.go:249-256 | Adding keeps the tree valid exactly if the object stays under its parent, or is new and its parent is not below it |
| `TreeSpec.TwoParentsExample` | internal/dpfctl/tree.go:249-256 | An object added under two parents, which breaks the agreement |
| `TreeSpec.CycleExample` | internal/dpfctl/tree.go:249-256 | An object added under its own child, which closes a cycle |
| `TreeSpec.UnlinkDanglesIff` | internal/dpfctl/tree.go:243-245 | Deleting a node leaves a child without an object exactly if another node owns it too |
| `TreeSpec.ReparentedDanglesIff` | internal/dpfctl/tree.go:239-256 | Deleting an added object leaves a child without an object exactly if it had another parent before |
| `TreeSpec.WithoutValid` | internal/dpfctl/tree.go:239-246 | Taking out whole subtrees leaves a valid tree |
| `ObjectTrees.ObjectTree.constructor` | internal/dpfctl/tree.go:79-93 | A new tree is empty and valid |
| `ObjectTrees.ObjectTree.Children` | internal/dpfctl/tree.go:274-280 | The children of a node |
| `ObjectTrees.ObjectTree.AddInner` | internal/dpfctl/tree.go:249-256 | The object is filed in all three maps |
| `ObjectTrees.ObjectTree.Remove` | internal/dpfctl/tree.go:239-246 | Exactly the node and its descendants go; everything else is unchanged and the tree stays valid |
| `TreeGrouping.NotReadyStep` | internal/dpfctl/tree.go:111-140 | Something below is not ready exactly if some child is not, or is organizational with something not ready below |
| `ObjectTrees.ObjectTree.HasNotReadyChildren` | internal/dpfctl/tree.go:111-140 | True exactly if a descendant, reached through organizational nodes only, is not ready |
| `ObjectTrees.ObjectTree.FindSibling` | internal/dpfctl/tree.go:172-208 | The first match in the order of the kinds is found, if there is any; siblings of one kind come in any order |
| `ObjectTrees.ObjectTree.GroupWith` | internal/dpfctl/tree.go:197-221 | The object joins a group of its kind, or a new group replaces the sibling; the tree stays valid |
| `ObjectTrees.ObjectTree.Add` | internal/dpfctl/tree.go:144-236 | An object is merged exactly if it is ready, nothing below it is unready and a sibling matches; else it is inserted; the tree stays valid exactly if the object is not inserted or may be, whether its UID is new or not |
| `TreeGrouping.MergeValid` | internal/dpfctl/tree.go:352-373 | Replacing a sibling by a new group keeps the tree valid |
| `TreeGrouping.JoinValid` | internal/dpfctl/tree.go:402-415 | Updating a group node keeps the tree valid |
| `GroupNames.SplitJoin` | internal/dpfctl/tree.go:402-415 | Item names are read back from the annotation exactly if none holds the separator |
| `GroupNames.SortSorts` | internal/dpfctl/tree.go:402-415 | The names are stored sorted, and are the same names |
| `TreeRows.MatchesIffTogether` | internal/dpfctl/tree.go:172-208 | A node of the row matches an object exactly if the two are ready, have nothing unready below and the same reason |
| `TreeRows.SharedIffTogether` | internal/dpfctl/tree.go:95-107 | Two objects share a node exactly if they belong together |
| `TreeRows.NamesOfAll` | internal/dpfctl/tree.go:95-107 | The names shown by the nodes of a row are the names of their members |
| `TreeRows.MergeKeepsNamesIff` | internal/dpfctl/tree.go:352-373 | A merge with a sibling shows all names exactly if the sibling is not a group itself |
| `TreeNames.NamesAfterAdd` | internal/dpfctl/tree.go:144-236 | The names below the parent after an add are those before and the new one exactly if the object is not merged with a group of another kind |
| `TreeNames.AddKeepsNamesIff` | internal/dpfctl/tree.go:172-222 | No name is lost, in whatever order siblings of one kind come, exactly if no first match in the order of the kinds is a group of another kind |
| `TreeNames.NamesLostExample` | internal/dpfctl/tree.go:172-222 | A tree in which the only way to add an object loses the names of a group |
| `TreeFrames.AddLeavesAlone` | internal/dpfctl/tree.go:95-107 | Adding an object of a row changes neither value nor parent of a node outside the subtrees of the header and of the objects still to come |
| `ObjectTrees.ObjectTree.AddToRow` | internal/dpfctl/tree.go:104-106 | One more object of a row keeps the row as it should be and everything outside alone |
| `ObjectTrees.ObjectTree.AddMultipleWithHeader` | internal/dpfctl/tree.go:95-107 | The header has its name and parent, and nodes not at or below an object of the row stay as they are; the names shown below the header are exactly the multiset of names added; objects share a node exactly if they belong together; group times are the minimum over the members |
| `ObjectTrees.ObjectTree.PruneHealthyChildren` | internal/dpfctl/tree.go:302-331 | The recursion, deleting in place, removes exactly the healthy subtrees and reports whether all is healthy |
| `ObjectTrees.ObjectTree.PruneHealthy` | internal/dpfctl/tree.go:296-299 | The tree is pruned below the root and stays valid |
| `PruneTheorems.SurvivesIffUnhealthy` | internal/dpfctl/tree.go:296-341 | A node below the root survives exactly if it or some descendant is in trouble, spelled out over their conditions; survivors are unchanged |
| `PruneTheorems.HealthyIffNoTrouble` | internal/dpfctl/tree.go:334-341 | Healthy means that the first Ready condition is True, or that there is none and no condition is failed |
| `PruneTheorems.SurvivorKeepsAncestors` | internal/dpfctl/tree.go:296-341 | Every survivor keeps its whole chain of ancestors |
| `PruneTheorems.PruneTwice` | internal/dpfctl/tree.go:296-341 | The pruned tree is valid and pruning it again changes nothing |
| `OvsDatabase.CommitIsClean` | pkg/ovsmodel/model.go:84-297 | A committed database has unique names, references that resolve and no garbage, as in sections 3.2 and 4.1.2 of RFC 7047 |
| `OvsClient.MutateMapField` | pkg/ovsutils/ovs.go:595-635 | The loop computes exactly the pairs to delete and to insert |
| `OvsRuns.WaitPassesIffFree` | pkg/ovsutils/ovs.go:278-289 | The wait operation aborts exactly if some interface has requested the port |
| `OvsRuns.CreatePortRuns` | pkg/ovsutils/ovs.go:345-406 | The create transaction runs exactly unless the guarded port is taken, and adds one interface and one port |
| `OvsRuns.CommitKeepsGood` | pkg/ovsutils/ovs.go:295-493 | Whatever a client sends, planned on however old a state, the database stays good |
| `OvsRuns.DatabaseStaysGood` | pkg/ovsutils/ovs.go:295-493 | In every interleaving of reads and transactions names are unique, references resolve, nothing is orphaned and no port is in two bridges |
| `OvsRuns.OfportsNeverClash` | pkg/ovsutils/ovs.go:358-406 | If every requested OpenFlow port goes through the wait operation, no two interfaces ever request the same one |
| `OvsRuns.InBridgeIffMember` | pkg/ovsutils/ovs.go:690-712 | The client's question whether a port is in a bridge has the obvious meaning |
| `OvsRuns.BridgeNameOfInterface` | pkg/ovsutils/ovs.go:122-163 | The bridge named for an interface holds it, and the call fails exactly for unknown interfaces |
| `OvsTheorems.MapUpdate` | pkg/ovsutils/ovs.go:595-635 | A key is set exactly if it settles, and other keys are never touched, whatever another writer did |
| `OvsTheorems.MapUpdateOverrides` | pkg/ovsutils/ovs.go:595-635 | The column becomes the old one overridden by the desired map exactly if every key settles |
| `OvsTheorems.StaleReadExample` | pkg/ovsutils/ovs.go:595-635 | A row, a stale read and a desired map where the other writer's value stays |
| `OvsTheorems.FreshReadSettles` | pkg/ovsutils/ovs.go:595-635 | If the snapshot agrees with the row on the desired keys, the column is overridden by the desired map |
| `OvsTheorems.SetMapOutcome` | pkg/ovsutils/ovs.go:495-514 | Setting a map column succeeds and changes nothing but that column of that row |
| `OvsTheorems.AddPortSucceedsVacuously` | pkg/ovsutils/ovs.go:345-406 | A committed AddPort created its port exactly if the bridge was still there; else nothing changed |
| `OvsLostPort.AddPortLostExample` | pkg/ovsutils/ovs.go:321-406 | An interleaving of AddPort and DeleteBridge in which AddPort succeeds and there is no port |
| `OvsTheorems.ReadBackPlans` | pkg/ovsutils/ovs.go:295-343 | Adding a port that is in its bridge does nothing; deleting it goes ahead unless the owner differs |
| `OvsTheorems.AddPortUndone` | pkg/ovsutils/ovs.go:422-493 | A creating AddPort followed by delPort restores the database exactly; repeating either does nothing |
| `OvsTheorems.WrongBridge` | pkg/ovsutils/ovs.go:422-467 | A port in another bridge is left alone by both calls, with an error from adding |
| `OvsTheorems.AddBridgeUndone` | pkg/ovsutils/ovs.go:745-887 | A creating AddBridge followed by DeleteBridge restores the database exactly, by garbage collection; repeating either does nothing |
| `OvsOutcomes.AddPortCreates` | pkg/ovsutils/ovs.go:334-406 | On a good database that has the bridge the create transaction commits exactly if the name and a guarded OpenFlow port are free; then the new rows have every column as configured, the bridge gains the port, and all other rows stay |
| `OvsOutcomes.AddPortOutcome` | pkg/ovsutils/ovs.go:295-407 | With fresh reads: AddPort succeeds exactly if the port is there already or the bridge exists and the names are free; what it adds; otherwise nothing changes |
| `OvsOutcomes.DelPortRemoves` | pkg/ovsutils/ovs.go:457-490 | Deleting takes exactly the port and all its interfaces out of a good database |
| `OvsOutcomes.DelPortOutcome` | pkg/ovsutils/ovs.go:422-493 | With fresh reads: when delPort fails, when it removes the port, and that nothing else changes |
| `OvsOutcomes.AddBridgeCreates` | pkg/ovsutils/ovs.go:759-845 | When creating is refused before any transaction, and every column of the rows that a committed one adds |
| `OvsOutcomes.DeleteBridgeRemoves` | pkg/ovsutils/ovs.go:851-887 | With one Open_vSwitch row, deleting takes exactly the bridge, its ports and their interfaces out of a good database |
| `OvsOutcomes.AddBridgeSets` | pkg/ovsutils/ovs.go:751-757 | On a bridge that is there, both maps are overridden by those asked for and nothing else changes |
| `OvsOutcomes.ColumnsAreSeparate` | pkg/ovsutils/ovs.go:516-674 | Setting one map column changes no other |
| `OvsCode.Server.Transact` | pkg/ovsutils/ovs.go:495-514 | Operations run in order on a copy, which is committed after garbage collection or not at all |
| `OvsCode.Client.AddPort` | pkg/ovsutils/ovs.go:295-407 | With any answers to its successive reads, the call sends the planned transaction or returns the planned result |
| `OvsCode.Client.DelPort` | pkg/ovsutils/ovs.go:422-493 | The same for deleting a port, its interfaces in any order |
| `OvsCode.Client.SetMap` | pkg/ovsutils/ovs.go:595-635 | Sends one map update, or nothing if there is nothing to update |
| `OvsCode.Client.SetBridgeMap` | pkg/ovsutils/ovs.go:652-674 | Reads the bridge again and sets one map, or does nothing if there is nothing to set |
| `OvsCode.Client.AddBridge` | pkg/ovsutils/ovs.go:745-845 | Creates the bridge, or sets the maps of an existing one, each after another read, stopping at the first error |
| `OvsCode.Client.DeleteBridge` | pkg/ovsutils/ovs.go:851-904 | Sends the delete transaction, or returns if the bridge is not there |
| `VfMac.VfMacs.LoadConfig` | pkg/vfmac/vfmac.go:294-329 | Loads exactly if the file is there and valid, or can be created empty |
| `VfMac.VfMacs.SetVfMac` | pkg/vfmac/vfmac.go:261-291 | Writes a valid address, or lets the device pick one |
| `VfMac.VfMacs.GetVfConfig` | pkg/vfmac/vfmac.go:245-252 | Reads back a valid, non-empty address |
| `VfMac.VfMacs.ProcessVf` | pkg/vfmac/vfmac.go:462-501 | One VF gets its recorded address, or a new one that is recorded; succeeds exactly if its position passes |
| `VfMac.VfMacs.RemoveStale` | pkg/vfmac/vfmac.go:504-511 | Exactly the discovered ECPFs stay in the mapping |
| `VfMac.VfMacs.ProcessVfs` | pkg/vfmac/vfmac.go:441-519 | A run succeeds exactly if nothing is in its way; then every found VF has its saved address and the saved ECPFs are the discovered ones; a failed run leaves the file alone |
| `VfMac.RecordedForGood` | pkg/vfmac/vfmac.go:441-519 | Through any runs, failing anywhere, a recorded address never changes while its ECPF stays discovered |
| `VfMac.SameAddressForGood` | pkg/vfmac/vfmac.go:441-519 | After every successful run that finds it a VF has its first recorded address, and no run gives it another |
| `VfMac.NewAddressIsRecorded` | pkg/vfmac/vfmac.go:478-493 | The first successful run that finds a VF records the valid address it has |
| `VfMac.VfNames` | pkg/vfmac/vfmac.go:462-463 | The VF at a position is named vf and the position in plain decimal, so different positions have different names |
| `VfMac.EachPositionRecorded` | pkg/vfmac/vfmac.go:462-501 | After a successful run every found position has an entry of its own, under its number, with the valid address that this VF has |
| `VfMac.EmptyAddressBlocks` | pkg/vfmac/vfmac.go:272-274 | With an empty address recorded, every run that finds the VF fails and leaves the file alone |
| `Conditions.Object.SetSummary` | pkg/conditions/conditions.go:167-210 | The loop computes the summary and sets Ready to it |
| `Conditions.Object.ReadyConditionMessage` | pkg/conditions/conditions.go:87-97 | The message lists the given conditions in order |
| `Conditions.Object.EnsureConditions` | pkg/conditions/conditions.go:101-122 | All wanted conditions are there afterwards, missing ones as Unknown and Pending, each once, and no existing one changes |
| `Conditions.ReadyIffAllTrue` | pkg/conditions/conditions.go:167-258 | Ready is True exactly if every other condition that is not excluded is True; else its reason is that of the last of the most severe up-to-date ones, or Pending |
| `Conditions.ReasonIs` | pkg/conditions/conditions.go:212-240 | The reason by name: deletion before failure before the later one of Pending and Retrying |
| `Conditions.MessageIs` | pkg/conditions/conditions.go:200-209 | The message, in all three cases |
| `Conditions.UnreadyInOrder` | pkg/conditions/conditions.go:180-205 | The message names exactly the up-to-date conditions that are not True, each once, in their order |
| `Conditions.OrderOnlyBreaksTies` | pkg/conditions/conditions.go:214-240 | Reordering the conditions changes at most Pending for Retrying or back |
| `Conditions.OthersHaveNoInfluence` | pkg/conditions/conditions.go:181-191 | Excluded conditions, True ones and Ready itself have no influence |
| `Conditions.SummaryIsFixpoint` | pkg/conditions/conditions.go:167-210 | Summing up again changes nothing, at any later time |
| `Conditions.OnlyReadyChanges` | pkg/conditions/conditions.go:242-258 | No other entry changes, and the transition time moves only with the status |
| `InterfaceCandidates.NamesRoundTrip` | api/dpuservice/v1alpha1/nodeserviceinterfaces_types.go:233-239 | Namespace and name are read back from an entry name exactly if the namespace has no underscore |
| `InterfaceCandidates.FromShardsExactly` | internal/utils/interface_resolver.go:157-177 | The entries considered are exactly the eligible ones of allowed shards of the node |
| `InterfaceCandidates.NamespacedNameIff` | api/dpuservice/v1alpha1/nodeserviceinterfaces_types.go:233-239 | Exactly which namespace and name an entry name gives |
| `InterfaceCandidates.MatchesPairByPair` | internal/utils/interface_resolver.go:49-49 | The selector matches exactly labels with all its pairs |
| `InterfaceCandidates.OldOnesAt` | internal/utils/interface_resolver.go:128-134 | The older objects considered are those stored for that node and namespace, each as often as stored, in stored order |
| `InterfaceCandidates.FromShardsAt` | internal/utils/interface_resolver.go:162-177 | The same for the eligible entries, shard by shard |
| `InterfaceResolver.ListedIff` | internal/utils/interface_resolver.go:122-184 | An interface is listed exactly if it is the last entry of its name in the store, or the last older object of a name no entry has |
| `InterfaceResolver.SoleEntryIff` | internal/utils/interface_resolver.go:189-241 | The shard search finds exactly one interface exactly if exactly one position in the store holds an eligible matching entry |
| `InterfaceResolver.NoEntryIff` | internal/utils/interface_resolver.go:189-241 | It finds none exactly if no position holds one |
| `InterfaceResolver.SoleOldIff` | internal/utils/interface_resolver.go:245-271 | The same for older objects of that node and namespace: one found exactly if one position holds a matching one |
| `InterfaceResolver.Add` | internal/utils/interface_resolver.go:138-143 | A name keeps its first position and gets the interface seen last |
| `InterfaceResolver.AddEntries` | internal/utils/interface_resolver.go:166-176 | The eligible entries of a shard are added in order |
| `InterfaceResolver.ListInterfacesForNode` | internal/utils/interface_resolver.go:122-184 | Each name once, in the order first seen, with the interface seen last; all of the node and namespace asked for; fails exactly if a list call fails |
| `InterfaceResolver.MatchingEntries` | internal/utils/interface_resolver.go:214-229 | The eligible entries of a shard that match, in order |
| `InterfaceResolver.MatchingCounts` | internal/utils/interface_resolver.go:232-240 | No match, exactly one match or several, according to how many were collected |
| `InterfaceResolver.ResolveFromNsi` | internal/utils/interface_resolver.go:189-241 | The only eligible entry that matches, nothing if none does, an error otherwise |
| `InterfaceResolver.ResolveFromOld` | internal/utils/interface_resolver.go:245-271 | The only older object that matches, or an error |
| `InterfaceResolver.Resolve` | internal/utils/interface_resolver.go:42-60 | Exactly when which interface of the store is the answer: the one entry that matches, or, if none does, the one older object, of the node and namespace asked for |
| `InterfaceResolver.EntriesTakePrecedence` | internal/utils/interface_resolver.go:119-184 | A listed interface comes from an entry whenever an eligible entry has its name |
| `InterfaceResolver.ResolvedEntryIsListedIff` | internal/utils/interface_resolver.go:189-241 | An entry that resolves is listed exactly if no later eligible entry has its name |
| `InterfaceResolver.ResolvedOldOneIsListedIff` | internal/utils/interface_resolver.go:245-271 | An older object that resolves is listed exactly if it is the last of its name and no eligible entry has its name |
| `InterfaceResolver.ResolvedButNotListed` | internal/utils/interface_resolver.go:119-241 | Two shards with an entry of the same name, where the one that resolves is not listed |

## Left out

- Connecting itself: REST configuration, clients, cache synchronisation and cancellation through a parent context; a connect step ends in one of four outcomes, and each started cache is a number.
- Steps of the reconciler's own watch registrations are not forced to run one after the other, so the theorems cover more runs than the code has.
- Errors in getting the DPUCluster object and the client for watch callbacks: the reconcile ends without touching the cache.
- Floating-point rounding and int64 overflow in the backoff; the arithmetic is exact and unbounded.
- Printing, its order and colours in dpfctl, annotations other than grouping, group, group items and order, and nil arguments.
- Random UIDs and names of dpfctl groups are parameters, required to be unused; names of objects are taken to hold no separator, as Kubernetes names do not.
- ObjectTrees.ObjectTree.AddMultipleWithHeader: states the layout for a row of one kind with new UIDs, which is what its callers pass; of other rows, TreeNames.AddKeepsNamesIff says for each add which names are shown.
- Columns and tables of the Open vSwitch schema that the client does not write, and the reference from Flow_Sample_Collector_Set to Bridge.
- Retries, timeouts and the cache of the OVSDB client library: a client plans on any state the database had before.
- The plural form of dpfctl header names, which a library makes: the header name is a parameter.
- Sysfs paths, TOML encoding, sleeps, partial writes and ECPF discovery in `vfmac`; what the system answers is a parameter.
- Which strings are MAC addresses is a parameter of `VfMac`, except that the word Random is none; the check of generated VF names is left out because it cannot fail.
- Label selectors other than sets of required pairs, and the fields an interface entry only copies.
- Everything else in the repository: controllers, API types, installers, rendering of identities and command wiring.
