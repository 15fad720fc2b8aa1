# The controllers behind GrafanaResourceDefinitions

An aggregated API server keeps `GrafanaResourceDefinition` objects (GRDs). A handful of controllers react
to them through informers that lag behind the server, and write their status back under a version check.
This project models those controllers, the stores and the caches they keep, and proves what holds of
whole runs of them.

Each part has up to three layers. *Functions* say what one operation computes. *Classes and methods* have
the form of the source (fields updated in place, loops, early returns) and are proved against these
functions. *Protocols* (`...Protocol.dfy`, `WatchReplay.dfy`) are state machines over the same functions:
a `State`, the `Step`s that can happen in any order, when each is `Enabled`, and what it `Apply`s; their
theorems quantify over every run. Beside each function a lemma (`...Exactly`, `...Parts`, `...Is...`) says
what it yields in terms of fields, places in a list and literal values only.

| part | files |
|---|---|
| objects and list helpers | `Kinds`, `Helpers`, `GrdStrategy`, `Orders`, `Sums` |
| name reservation in a group | `Naming`, `NamingProtocol`, `NamingInvariant`, `NamingSlots`, `NamingSafety` (no shared names), `NamingWakeups` (no lost work), `NamingProgress` (at rest), `NamingBacklog` and `NamingBound` (boundedly many writes) |
| one object between server and informer | `WatchFeed`, `Informer`, `GroupVersions` |
| establishing | `Establishing`, `EstablishingProtocol` |
| serving infos of the resource handler | `ServingInfo`, `ServingProtocol` |
| discovery of groups and versions | `Discovery`, `DiscoveryEntries` (what is shown), `DiscoveryProtocol` |
| deleting a GRD and its instances | `Deletion`, `DeletionProtocol` (while it is being deleted), `DeletionOutcome` (what is left) |
| registering API services | `Registration`, `RegistrationProtocol` |
| approval of protected groups | `Approval`, `ApprovalProtocol`, `ApprovalOutcome` (when forgetting is enough) |
| the file-backed store and its watches | `FileStorage`, `WatchSet`, `WatchReplay` |
| update strategy of instances | `ResourceStrategy` |

What becomes a parameter: clock readings, generated resource versions, which calls fail, the order a
lister or a directory yields its entries in, the library's version comparison (a rank), whether a string
is a URL.

Where code and documentation differ the model follows the code:

- Setting a label requirement on the selector in `autoregistration.go` has no effect, as the extended
  selector is discarded; all services present at the start are remembered, not only labelled ones.
- `GuaranteedUpdate` of the file store documents that it stops once the update succeeds; the loop goes on
  after a successful write.
- `getItems` of the file store returns nothing for typed lists, so their watches start without items.
- The status strategy of GRDs resets metadata of the new object from itself, which changes nothing; a
  status update therefore also carries finalizers and annotations.

Some properties one would expect are false of the code. For each the theorem says exactly when it holds,
and a lemma constructs runs or inputs for which it does not:

| expected | holds exactly | fails in |
|---|---|---|
| at rest NamesAccepted is True when names are as requested | `NamesAcceptedAtRest` | `RevertLeavesNamesRefused` |
| at rest a GRD with accepted names is Established | `EstablishedAtRest` | `FirstSightIsSkipped` |
| no instance outlives its GRD | `OutlivedExactly` | `LeaveUncleared`, `ReopenTheGate` |
| API service names tell group-versions apart | `NamesClashExactly`, `WantedRightExactly` | `ClashLosesService` |
| unwanted API services are removed | `LeftoversStay` | the same |
| at rest a GRD has the approval condition it calls for | `ConditionIsRightAtRest` | `LateMemoHidesTheCondition`, `RelistHidesTheCondition` |
| a watch sees what is stored | `WatchSeesExactly`, `FilteredWatchExactly`, `WatchRebuildsStore` | the same |
| an update that succeeds sets its destination | `UpdateAnswersExactly` | `UnsetDestination` |
| an update that fails writes nothing | `UpdateAnswersExactly` | `VersionedUpdateWritesAndFails` |

## Model

| member | source | states |
|---|---|---|
| `NamingSafety.AcceptedNamesStayUnique` | pkg/controller/status/naming_controller.go:78-274 | In every reachable state of the naming protocol no two stored GRDs of a group share a non-empty accepted plural, singular or short name, nor a non-empty accepted kind or list kind |
| `NamingWakeups.NoLostWakeup` | pkg/controller/status/naming_controller.go:223-370 | In every reachable state, if syncing a stored GRD against what the server stores would write, then an event, a handler call, a queue entry or a sync of it is outstanding, or one is for a GRD of its group that is gone or was created anew, or its group is about to be requeued; this includes conflicts that are reported as success |
| `NamingBound.CommitsAreBounded` | pkg/controller/status/naming_controller.go:112-274 | From any reachable state, as long as no GRD is created, edited or deleted, the number of writes of the naming controller is bounded by a measure of that state, whatever the informer and other writers do and however long the run |
| `NamingBound.StepLowers` | pkg/controller/status/naming_controller.go:223-274 | Each step while specs are fixed leaves the measure at most as large, and a write lowers it by at least one |
| `NamingBacklog.MoveReducesMismatch` | pkg/controller/status/naming_controller.go:127-178 | A write that moves accepted names leaves fewer name slots that differ from the spec |
| `NamingBacklog.CorrectionPays` | pkg/controller/status/naming_controller.go:244-253 | A write that moves no name lowers the measure, given that a GRD read as it is shown was wrong before and is right after it, or that the reading was outdated and its sync ends |
| `NamingBound.CorrectedDiffers` | pkg/controller/status/naming_controller.go:244-253 | And that is given: where the names read as used are those shown, the GRD's NamesAccepted was not the one they call for, and after the write it is |
| `NamingProgress.AtRestNamesAreInUse` | pkg/controller/status/naming_controller.go:112-258 | At rest, in every run, every requested name that is not accepted is really in use in its group (for short names: one of the new ones is), and NamesAccepted is False |
| `NamingProgress.AtRestConflictIsReported` | pkg/controller/status/naming_controller.go:112-178 | At rest, in every run, a GRD without all its names holds the NamesAccepted condition for the last slot that is blocked by what the GRDs of its group have accepted, with that slot's reason and exactly the names in use |
| `NamingProgress.StuckExactly` | pkg/controller/status/naming_controller.go:237-248 | One step: a GRD has its names as requested without NamesAccepted being True (it is stuck) exactly if its owner just edited it back to the accepted names while NamesAccepted was not True, or it was so and its owner did not touch it; no write of any controller matters |
| `NamingProgress.StuckAfterExactly` | pkg/controller/status/naming_controller.go:237-248 | After any run a GRD is stuck exactly if such an edit is the last thing its owner did to it, or it was so from the start |
| `NamingProgress.NamesAcceptedAtRest` | pkg/controller/status/naming_controller.go:112-258 | At rest, in every run, NamesAccepted is True exactly when all names are as requested, except exactly for the stuck GRDs |
| `NamingProgress.RevertLeavesNamesRefused` | pkg/controller/status/naming_controller.go:237-240 | The exception is met: a run comes to rest with a stuck GRD, because the sync stops before it looks at the condition |
| `NamingSafety.ServedHasEstablished` | pkg/apiserver/grafanaresource_handler.go:250-346 | In every reachable state every copy the lister can return has an Established condition if it has NamesAccepted or Established True, so the create path may dereference it |
| `NamingSafety.EstablishedIsFinalInRuns` | pkg/controller/status/naming_controller.go:187-210 | Over every run of naming, establishing, approval and finalizer commits: within one incarnation Established never reverts, and it becomes True only in a commit after which NamesAccepted is True |
| `NamingSafety.WriteKeeps` | pkg/controller/status/naming_controller.go:255-271 | A write that the server takes keeps the whole invariant: only names that were free and collected as free are taken |
| `NamingSlots.LookedIsStored` | pkg/controller/status/naming_controller.go:92-99 | Once names were decided for the stored incarnation, the listed object overlaid with the mutation cache shows exactly the stored accepted names, however far the informer lags |
| `NamingWakeups.DecideQuiet` | pkg/controller/status/naming_controller.go:237-248 | A sync that decides to write nothing leaves its GRD with new work outstanding, or with names decided and nothing to write unless a released name of its group is still outstanding |
| `Naming.SwapIsRefused` | pkg/controller/status/naming_controller.go:101-106 | Since a GRD's own accepted names count as used, exchanging plural and singular is refused whatever else is in the group |
| `Naming.AcceptedMeansAll` | pkg/controller/status/naming_controller.go:112-185 | The computed condition is True exactly when the computed names are all the requested ones |
| `Naming.ConflictReported` | pkg/controller/status/naming_controller.go:127-185 | The computed condition is False with the reason and the names of the last slot, in the order plural, singular, short names, kind, list kind, whose requested value is neither accepted nor free; for short names it names each such new one once, in the order requested; without such a slot it is True with reason NoConflicts |
| `Naming.NamesMove` | pkg/controller/status/naming_controller.go:127-178 | Each slot moves to the requested value exactly if that is accepted already or free, the short names only all together, the categories always |
| `Naming.EstablishedReported` | pkg/controller/status/naming_controller.go:187-207 | Established stays as it is held where it is True or names are refused; it is Installing once the names are accepted and NotAccepted where nothing was held |
| `Naming.SyncWritesExactly` | pkg/controller/status/naming_controller.go:237-248 | A sync writes exactly if the requested names are not the accepted ones, and the accepted ones would change or the condition held has another status, reason or message |
| `Naming.OnlyNamesWritten` | pkg/controller/status/naming_controller.go:250-253 | Besides the two conditions a write changes only the accepted names |
| `Naming.StatusStoredExactly` | pkg/controller/status/naming_controller.go:255-262 | A status is stored exactly if it is for the stored version |
| `Naming.ClaimedExactly` | pkg/controller/status/naming_controller.go:101-106 | What a GRD claims: its accepted plural, singular and short names among resources, its kind and list kind among kinds |
| `NamingProtocol.RequeueExactly` | pkg/controller/status/naming_controller.go:358-370 | A requeue in the protocol queues exactly the other listed names of the group |
| `Naming.NewNamesWereFree` | pkg/controller/status/naming_controller.go:212-221 | A non-empty name newly taken by the outcome was not among the used ones |
| `Naming.FirstSyncWrites` | pkg/controller/status/naming_controller.go:237-248 | A GRD without a NamesAccepted condition is written exactly if its accepted names are not the requested ones |
| `Naming.WithOutcomeConditions` | pkg/controller/status/naming_controller.go:250-253 | The written status has the computed NamesAccepted and Established conditions and every other condition as before |
| `Naming.RefusedShortNamesEmpty` | pkg/controller/status/naming_controller.go:141-161 | No short name is refused exactly if every requested one that is not accepted yet is free |
| `Naming.NamingConditionController.GetAcceptedNamesForGroup` | pkg/controller/status/naming_controller.go:78-110 | Collects exactly the names accepted in the group as lister and mutation cache show them |
| `Naming.NamingConditionController.CalculateNamesAndConditions` | pkg/controller/status/naming_controller.go:112-210 | The loop-and-branch form computes the specified names and the two conditions; the last refused slot is the one reported |
| `Naming.NamingConditionController.CollectShortNameErrors` | pkg/controller/status/naming_controller.go:142-153 | Collects the refused short names in order |
| `Naming.NamingConditionController.UpdateStatus` | pkg/controller/status/naming_controller.go:255-262 | The server takes a status only for the version it was based on; what it then stores, and that nothing changes otherwise |
| `Naming.NamingConditionController.RequeueAllOtherGroupGRDs` | pkg/controller/status/naming_controller.go:358-370 | Queues exactly the other listed GRDs of the group parsed from the name |
| `Naming.NamingConditionController.Sync` | pkg/controller/status/naming_controller.go:223-274 | One undisturbed sync: server, mutation cache, queue and result in each of its cases |
| `Kinds.AfterDotIsGroup` | pkg/controller/status/naming_controller.go:358-359 | Splitting plural.group at the first dot gives the group back when the plural has no dot |
| `EstablishingProtocol.EstablishedAtRest` | pkg/apiserver/grafanaresource_handler.go:448-466 | Whatever is written when, and although a conflict drops the key: once everything is handled a GRD with accepted names is Established, except exactly if it is as the informer first showed it |
| `EstablishingProtocol.FirstSightIsSkipped` | pkg/apiserver/grafanaresource_handler.go:429-466 | A GRD the informer first shows with accepted names is not queued and comes to rest without being Established, as the add handler queues nothing |
| `Establishing.EstablishingController.Sync` | pkg/controller/establish/establishing_controller.go:116-150 | Writes exactly when the listed GRD has its names accepted and is not Established, and only over the version read |
| `Establishing.EstablishedSet` | pkg/controller/establish/establishing_controller.go:130-138 | The write turns Established True with reason InitialNamesAccepted and leaves everything else as it was |
| `Informer.TakenInExactly` | pkg/apiserver/grafanaresource_handler.go:164-170 | What the lister shows and what the event says after a change of one name |
| `Establishing.EstablishingIsOther` | pkg/controller/establish/establishing_controller.go:125-138 | The establishing write is one the naming protocol allows to other writers |
| `Establishing.ApprovalIsOther` | pkg/controller/apiapproval/apiapproval_controller.go:147-151 | So is the approval write |
| `Establishing.FinalizingIsOther` | pkg/controller/finalizer/finalizer.go:113-164 | So are the finalizer's writes and the deletion mark |
| `ServingProtocol.InfosAreCoherent` | pkg/apiserver/grafanaresource_handler.go:429-606 | In every interleaving of lister updates, handlers (with the sweep listing before it takes the lock) and on-demand creation, a kept serving info was built from the spec and the accepted names the lister now shows for its uid, or an outstanding event or sweep will drop it |
| `ServingProtocol.InfosMatchAtRest` | pkg/apiserver/grafanaresource_handler.go:429-606 | With no event and no sweep outstanding every kept info belongs to a listed GRD of its uid and was built from that GRD's spec and accepted names |
| `ServingProtocol.InfosAreConserved` | pkg/apiserver/grafanaresource_handler.go:489-801 | Every info ever built is kept once and not torn down, or torn down once and not kept; nothing else is kept or torn down |
| `ServingProtocol.TakeKeepsCoherent` | pkg/apiserver/grafanaresource_handler.go:164-170 | What the informer takes in leaves an info listed or queues the event that drops it |
| `ServingProtocol.HandledIsLocal` | pkg/apiserver/grafanaresource_handler.go:429-532 | An event that leaves an info in place was not the one to drop it |
| `ServingProtocol.EvictsExactly` | pkg/apiserver/grafanaresource_handler.go:429-532 | Which events drop an info: an object of its uid with another spec or other accepted names, a change to another uid, and a deletion after which its uid is not listed |
| `ServingInfo.SweptConserves` | pkg/apiserver/grafanaresource_handler.go:506-532 | A sweep moves exactly the infos of unlisted uids from the kept to the torn-down ones |
| `ServingInfo.RefreshedExactly` | pkg/apiserver/grafanaresource_handler.go:429-445 | An info of the object's uid is torn down, once, exactly if its spec or its accepted names are not the object's; all else is left alone |
| `ServingInfo.ReplacedExactly` | pkg/apiserver/grafanaresource_handler.go:448-484 | Likewise for an update, which also tears down what was kept under a replaced uid |
| `ServingInfo.SweptExactly` | pkg/apiserver/grafanaresource_handler.go:506-532 | A sweep tears down exactly the infos of unlisted uids |
| `ServingInfo.BuiltExactly` | pkg/apiserver/grafanaresource_handler.go:586-801 | An info carries the spec, the accepted names and the first storage version of the object it is built from |
| `ServingInfo.GateExactly` | pkg/apiserver/grafanaresource_handler.go:186-300 | Whom the gate lets through: NamesAccepted or Established is True, the first version of the name is served, and a namespace is given exactly where there are namespaces, save for list and watch; creates need the GRD not to be Terminating; which verbs there are |
| `ServingInfo.GrdHandler.CreateGrafanaResourceDefinition` | pkg/apiserver/grafanaresource_handler.go:429-445 | Drops the info of the added GRD's uid, tearing it down once, exactly if its spec or accepted names are not the GRD's; otherwise changes nothing |
| `ServingInfo.GrdHandler.UpdateGrafanaResourceDefinition` | pkg/apiserver/grafanaresource_handler.go:448-484 | Drops the infos of a replaced uid and of another spec or other accepted names, keeps one that agrees in both, and queues the GRD for establishing exactly if NamesAccepted is True and Established is not |
| `ServingInfo.GrdHandler.RemoveStorageLocked` | pkg/apiserver/grafanaresource_handler.go:489-503 | Removes one uid from a copy of the map and hands its info to tearDown |
| `ServingInfo.GrdHandler.RemoveDeadStorage` | pkg/apiserver/grafanaresource_handler.go:506-532 | Keeps exactly the infos of the uids listed before the lock and hands each other one to tearDown once |
| `ServingInfo.GrdHandler.GetOrCreateServingInfoFor` | pkg/apiserver/grafanaresource_handler.go:586-801 | Answers with the kept info, or with the one of the uid the lister has under the name, or builds one from the lister's object and keeps it under that uid; a failure changes nothing |
| `ServingInfo.GrdHandler.ServeResource` | pkg/apiserver/grafanaresource_handler.go:186-374 | When a request is handled, delegated, refused or failed, depending on what the listed GRD admits, the info at hand and the verb; create is refused while the GRD is Terminating, and finds an Established condition |
| `DiscoveryProtocol.VersionEntriesAreRight` | pkg/apiserver/grafanaresource_discovery_controller.go:75-311 | In every reachable state the entry of a version that is not queued, named in a pending event or being synced shows exactly the Established GRDs of the group that serve it, each with its resource and declared subresources as its accepted names, scope and conditions have them; it is absent exactly if there is none |
| `DiscoveryProtocol.GroupEntriesAreRight` | pkg/apiserver/grafanaresource_discovery_controller.go:256-275 | A group's entry, when none of its versions awaits a sync, lists exactly the versions some Established GRD of the group serves, each once, sorted, the first being preferred; it is absent if there is none |
| `DiscoveryProtocol.IndexesAgreeAtRest` | pkg/apiserver/grafanaresource_discovery_controller.go:256-290 | With no work left a version has an entry exactly if its group's entry lists it |
| `DiscoveryProtocol.TakeKeepsGood` | pkg/apiserver/grafanaresource_discovery_controller.go:381-419 | A change of any GRD leaves each entry right or enqueues what corrects it, since old and new versions are both enqueued |
| `Discovery.CollectedIsRight` | pkg/apiserver/grafanaresource_discovery_controller.go:82-254 | Whatever order the lister returns its objects in, the collected rows are those of the GRDs naming the version in some order |
| `DiscoveryEntries.RightEntryShows` | pkg/apiserver/grafanaresource_discovery_controller.go:88-254 | Field by field: a right entry has for each Established GRD that serves the version one row with its accepted names, categories and scope, followed by a row for each subresource its first version of the name declares; nothing else is in it |
| `DiscoveryEntries.MainIsResource` | pkg/apiserver/grafanaresource_discovery_controller.go:127-144 | The resource's verbs are get, list, watch, delete and deletecollection, and create, update and patch exactly if the GRD is not Terminating; its hash is of the last version that is served and flagged storage |
| `DiscoveryEntries.SubsAreSubresources` | pkg/apiserver/grafanaresource_discovery_controller.go:217-253 | A subresource row has the suffix, kind, group and verbs of its subresource, there is one for each declared, and no two have the same name |
| `DiscoveryEntries.ServedInExactly` | pkg/apiserver/grafanaresource_discovery_controller.go:88-120 | What a group's entry lists: the versions an Established GRD of the group has flagged served |
| `Discovery.EntriesAgree` | pkg/apiserver/grafanaresource_discovery_controller.go:256-290 | For one state of the lister a version entry exists exactly if the group entry lists the version |
| `Discovery.VersionEntryExists` | pkg/apiserver/grafanaresource_discovery_controller.go:88-125 | A version's entry exists exactly if some Established GRD of the group serves the version |
| `Discovery.ServedHasFirst` | pkg/apihelpers/helpers.go:190-198 | A served version can always be found by name, so the subresource lookup cannot fail |
| `Discovery.DiscoveryController.Enqueue` | pkg/apiserver/grafanaresource_discovery_controller.go:381-385 | Queues exactly the group-versions the spec names |
| `Discovery.DiscoveryController.UpdateGrafanaResourceDefinition` | pkg/apiserver/grafanaresource_discovery_controller.go:393-401 | Queues the versions of the old and of the new object |
| `Discovery.DiscoveryController.VisitVersions` | pkg/apiserver/grafanaresource_discovery_controller.go:97-120 | One pass over a GRD's versions: the group's versions each once, whether the wanted one is served, and the hash of the last served storage version |
| `Discovery.RowPerSubresource` | pkg/apiserver/grafanaresource_discovery_controller.go:217-253 | One row per subresource the first version of that name declares and no other, each under its own name; all can be got, none created or deleted through, and exactly status and scale updated |
| `Discovery.DiscoveryController.Collect` | pkg/apiserver/grafanaresource_discovery_controller.go:88-254 | The loop over the listed GRDs yields the group's served versions without duplicates and the version's rows |
| `Discovery.DiscoveryController.Publish` | pkg/apiserver/grafanaresource_discovery_controller.go:256-290 | Writes or removes the two entries; without a served version both go |
| `Discovery.DiscoveryController.Sync` | pkg/apiserver/grafanaresource_discovery_controller.go:75-304 | Both entries are right for the lister read and no other entry is touched |
| `Discovery.SortGroupDiscoveryByKubeAwareVersion` | pkg/apiserver/grafanaresource_discovery_controller.go:307-311 | The result has the same versions, each once, in descending rank |
| `DeletionProtocol.DeletionIsSafe` | pkg/controller/finalizer/finalizer.go:98-249 | In every reachable state a stored GRD that is marked for deletion and awaits cleanup is Terminating, and stays stored, awaiting cleanup and Terminating over every step but the finalizer's last write; when that goes through, it overlaps with a built-in resource, is not Established, or has no instance left |
| `DeletionOutcome.NothingOutlives` | pkg/controller/finalizer/finalizer.go:98-249 | In every run: once the last write of a GRD that is Established, overlaps with no built-in resource and is held by no other finalizer has gone through, the GRD is gone, no instance is left, and none can be created before a GRD of the name is |
| `DeletionOutcome.OutlivedExactly` | pkg/controller/finalizer/finalizer.go:98-249 | An instance can outlive a GRD, whether or not that had the cleanup finalizer before it was deleted, exactly if at the finalizer's last write the GRD overlaps, is not Established, or is held by another finalizer as well |
| `DeletionOutcome.LeaveUncleared` | pkg/controller/finalizer/finalizer.go:147-155 | For every GRD that overlaps or is not Established there is a run in which an instance created while it was served is left when it is gone |
| `DeletionOutcome.ReopenTheGate` | pkg/controller/finalizer/finalizer.go:243-248 | The last write turns Terminating False, so while another finalizer holds the GRD instances can be created again that nothing cleans up |
| `DeletionProtocol.OwnWrite` | pkg/controller/finalizer/finalizer.go:112-164 | The finalizer's reports keep the GRD awaiting cleanup and Terminating; only the last write takes the finalizer off |
| `DeletionProtocol.OthersKeepClosed` | pkg/registry/grafanaresourcedefinition/storage.go:109-140 | Updates, repeated deletes and other status writes leave a GRD being cleaned up as it is in these respects |
| `DeletionProtocol.LastWriteSaysWhy` | pkg/controller/finalizer/finalizer.go:130-158 | In every run, where another finalizer still holds the GRD after the last write, its Terminating condition is False with the reason for stopping: overlap, never established, or completed |
| `DeletionProtocol.ReportsAreStored` | pkg/controller/finalizer/finalizer.go:112-150 | In every run a report that goes through stores progress, or the reason of the failure, in the Terminating condition and changes nothing else |
| `WatchFeed.CurrentIsSeen` | pkg/controller/finalizer/finalizer.go:120-124 | A version-checked write based on what the informer showed goes through only if the informer is up to date |
| `Deletion.MarkedAwaitsCleanup` | pkg/registry/grafanaresourcedefinition/storage.go:109-140 | The mark sets deletion timestamp, finalizer and Terminating together and leaves Established alone |
| `Deletion.MarkedMarksOnly` | pkg/registry/grafanaresourcedefinition/storage.go:128-146 | The mark appends the cleanup finalizer unless it is there, keeps all other finalizers in their order, and leaves spec, names, annotations and every other condition as they were |
| `Deletion.ReadsExactly` | pkg/controller/finalizer/finalizer.go:104-145 | What the finalizer goes by: the first Established and Terminating conditions, the deletion mark, and the cleanup finalizer |
| `Deletion.OverlapsExactly` | pkg/controller/finalizer/finalizer.go:130 | Only two resources count as built in |
| `Deletion.KeptExactly` | pkg/controller/finalizer/finalizer.go:158 | A deleted object goes with its last finalizer, and only then |
| `Deletion.OnlyConditionWritten` | pkg/controller/finalizer/finalizer.go:112-150 | Writing a condition changes that condition and nothing else |
| `Deletion.UnfinalizedIsCleanedUp` | pkg/controller/finalizer/finalizer.go:158 | Taking the finalizer off removes exactly that finalizer |
| `Deletion.UnfinalizedKeeps` | pkg/controller/finalizer/finalizer.go:158 | And besides it only the Terminating condition is written |
| `Deletion.EmptiesExactly` | pkg/controller/finalizer/finalizer.go:167-249 | Deleting the instances succeeds exactly if they can be listed before and after, no namespace refuses, and none lingers |
| `Deletion.Rest.Delete` | pkg/registry/grafanaresourcedefinition/storage.go:74-166 | Not found; refused exactly for another uid or version than asked for; marked on the first request with all other finalizers, conditions and contents kept; later requests are left to the store; each with its effect on the server |
| `Deletion.GrdFinalizer.UpdateStatus` | pkg/controller/finalizer/finalizer.go:120-127 | A status write is taken only for the current version; an object deleted and without finalizers then goes |
| `Deletion.GrdFinalizer.DeleteInstances` | pkg/controller/finalizer/finalizer.go:167-249 | Every namespace with an instance is told once to delete its collection; the condition is False exactly if nothing failed and nothing is left |
| `Deletion.GrdFinalizer.Sync` | pkg/controller/finalizer/finalizer.go:98-165 | One undisturbed sync whose writes go through drops the cleanup finalizer exactly if the GRD overlaps, is not Established or is emptied, and otherwise leaves it Terminating, with the reason of each case in the Terminating condition; a GRD that changed in the meantime is left alone |
| `Registration.SwitchIsTable` | pkg/controller/apiregistration/autoregistration.go:164-246 | The ordered switch realises exactly the 18 documented cells, updates that would change nothing aside |
| `Registration.DecideExactly` | pkg/controller/apiregistration/autoregistration.go:174-246 | When a service is created, updated or deleted, in terms of what is wanted, found, labelled, there at the start and synced before |
| `Registration.LabelExactly` | pkg/controller/apiregistration/autoregistration.go:301-316 | The label values true and onstart, and no other, make a service managed |
| `Registration.SucceedsExactly` | pkg/controller/apiregistration/autoregistration.go:174-246 | A check succeeds when nothing is to be done and when the operation is answered, be it too late |
| `Registration.PutExactly` | pkg/controller/apiregistration/autoregistration.go:200-246 | A creation stores what is wanted, an update changes the spec only, and no operation touches another name |
| `Registration.FoundExactly` | pkg/controller/apiregistration/autoregistration.go:174-186 | A lookup that does not fail finds what is there |
| `Registration.ServicePoints` | pkg/controller/apiregistration/apiregistration.go:201-216 | The wanted service points at service ext-api in namespace grafana at the configured port, for its own group and version, with priorities 1000 and 100, without TLS verification, and is continuously managed |
| `Registration.OnStartIsOnce` | pkg/controller/apiregistration/autoregistration.go:164-299 | Over any run of checks, whatever is wanted and found at each, a service to be synced on start is successfully created, updated or deleted at most once |
| `Registration.NamesAreInjective` | pkg/controller/apiregistration/apiregistration.go:186 | API service names tell group-versions apart as long as versions have no dot |
| `Registration.NamesClashExactly` | pkg/controller/apiregistration/apiregistration.go:186 | A group-version shares its name with no other whose version has no dot, if and only if its own version has none; a dotted version always finds a partner |
| `Registration.NamesAloneExactly` | pkg/controller/apiregistration/apiregistration.go:186 | Among all group-versions exactly those without any dot in version and group have their name to themselves |
| `RegistrationProtocol.WantedExactlyIfServed` | pkg/controller/apiregistration/apiregistration.go:179-223 | Once both queues are drained a service is wanted exactly for every group-version some GRD serves, with its spec, as long as no two group-versions GRDs named over the run share a service name |
| `RegistrationProtocol.ServedIsRegistered` | pkg/controller/apiregistration/apiregistration.go:185-223 | So at rest, for each version a listed GRD serves, the service version.group is wanted and points at the configured port, and so does the remote object where there was none at the start or it was continuously managed |
| `RegistrationProtocol.SyncedAtRest` | pkg/controller/apiregistration/autoregistration.go:164-172 | At rest exactly the names of group-versions that GRDs named are remembered as synced, as a failed check is repeated |
| `RegistrationProtocol.WantedRightExactly` | pkg/controller/apiregistration/apiregistration.go:179-223 | That condition is exact: for any set of group-versions, every run over them that comes to rest has the right services wanted, if and only if no two of them share a name |
| `RegistrationProtocol.ClashLosesService` | pkg/controller/apiregistration/apiregistration.go:186-222 | For any two that share a name there is a run in which one is served and no service of the name is wanted |
| `RegistrationProtocol.DotlessIsDistinct` | pkg/controller/apiregistration/apiregistration.go:186 | Group-versions without dots in their versions share no names |
| `RegistrationProtocol.RemoteMatchesAtRest` | pkg/controller/apiregistration/autoregistration.go:174-287 | And the remote object of a wanted name that was absent at the start or continuously managed has the wanted spec; continuously managed objects that are not wanted are leftovers of the start, unchanged |
| `RegistrationProtocol.TouchedAtRest` | pkg/controller/apiregistration/apiregistration.go:112-121 | At rest the names ever queued are exactly those of the group-versions that GRDs named over the run |
| `RegistrationProtocol.UnlabelledIsUntouched` | pkg/controller/apiregistration/autoregistration.go:210-212 | At any time an object without the management label is as it was at the start |
| `RegistrationProtocol.LeftoversStay` | pkg/controller/apiregistration/autoregistration.go:68-85 | In every run at rest: what was continuously managed at the start remains, unchanged and unwanted, exactly if no GRD ever named a group-version of that name, since no event of API services is handled |
| `RegistrationProtocol.CheckAchieves` | pkg/controller/apiregistration/autoregistration.go:174-246 | A check that succeeds brings the object in line with what it took to be wanted |
| `RegistrationProtocol.SettleKeepsStageOne` | pkg/controller/apiregistration/apiregistration.go:185-223 | Acting on a listing leaves every group-version agreed with the lister or with work outstanding |
| `Registration.AutoRegisterController.RecordAtStart` | pkg/controller/apiregistration/autoregistration.go:102-113 | Every listed service is remembered, as the label requirement never gets into the selector |
| `Registration.AutoRegisterController.AddAPIServiceToSync` | pkg/controller/apiregistration/autoregistration.go:262-278 | Labels and stores the wanted service and queues its name |
| `Registration.AutoRegisterController.RemoveAPIServiceToSync` | pkg/controller/apiregistration/autoregistration.go:281-287 | Forgets the wanted service and queues its name |
| `Registration.AutoRegisterController.CheckAPIService` | pkg/controller/apiregistration/autoregistration.go:174-246 | Does to the remote object what the table's cell says, and remembers a first success |
| `Registration.GrdRegistrationController.EnqueueGRD` | pkg/controller/apiregistration/apiregistration.go:179-183 | Queues exactly the group-versions the spec names |
| `Registration.GrdRegistrationController.HandleVersionUpdate` | pkg/controller/apiregistration/apiregistration.go:185-223 | Wants the service version.group, pointing at the configured port, exactly if some listed GRD serves the group-version, queues the name either way, and touches no other name |
| `ApprovalProtocol.MemoIsSound` | pkg/controller/apiapproval/apiapproval_controller.go:116-168 | In every reachable state outside the window between a commit and its being remembered: an annotation remembered for the stored incarnation is one whose condition the GRD has |
| `ApprovalProtocol.ConditionIsRightAtRest` | pkg/controller/apiapproval/apiapproval_controller.go:116-168 | In every run a stored GRD at rest has the condition its own annotation calls for, except exactly if its group is protected and what is remembered under its name is its own annotation, remembered for an earlier incarnation; it then has no condition |
| `ApprovalProtocol.AnnotationIsJudgedAtRest` | pkg/controller/apiapproval/apiapproval_controller.go:71-113 | That is, in a community domain: False and MissingAnnotation without an annotation, False and UnapprovedAnnotation if it starts so, True and ApprovedAnnotation for a URL, False and InvalidAnnotation for anything else |
| `ApprovalOutcome.InTimeIsRight` | pkg/controller/apiapproval/apiapproval_controller.go:236-254 | In every run without relists in which no deletion is handled in the window between a commit and its being remembered, the condition is right at rest, however often the name is deleted and created again |
| `ApprovalProtocol.LateMemoHidesTheCondition` | pkg/controller/apiapproval/apiapproval_controller.go:236-254 | Every GRD of a protected group has a run, without relists, in which it is deleted in that window, created again and comes to rest without a condition |
| `ApprovalProtocol.RelistHidesTheCondition` | pkg/controller/apiapproval/apiapproval_controller.go:236-254 | And one in which nothing happens in that window, but a relist hides the deletion from the informer |
| `Approval.WrittenConforms` | pkg/controller/apiapproval/apiapproval_controller.go:71-113 | What a sync writes is the condition its annotation calls for, and leaves the annotation |
| `Approval.ProtectedExactly` | pkg/apihelpers/helpers.go:20-30 | Protected are k8s.io, kubernetes.io and the groups below them |
| `Approval.VerdictExactly` | pkg/apihelpers/helpers.go:46-62 | Which condition each annotation gets |
| `Approval.DecisionExactly` | pkg/controller/apiapproval/apiapproval_controller.go:116-151 | A sync decides to write exactly for a protected group, an annotation that is not the remembered one and a condition that does not judge it |
| `Approval.OnlyVerdictWritten` | pkg/controller/apiapproval/apiapproval_controller.go:140-151 | And writes that condition alone |
| `Approval.ApprovalController.Sync` | pkg/controller/apiapproval/apiapproval_controller.go:116-168 | Writes exactly when the annotation is not the remembered one and the condition differs, and remembers it exactly when that write goes through |
| `Approval.ApprovalController.DeleteGrafanaResourceDefinition` | pkg/controller/apiapproval/apiapproval_controller.go:236-254 | Forgets the annotation remembered under the name |
| `FileStorage.LogRebuildsStore` | pkg/storage/filepath/storage.go:108-481 | Over any sequence of creates, deletes and updates, replaying the events rebuilds the stored files, and every event says truly whether its key was there |
| `FileStorage.GuaranteedUpdateOutcome` | pkg/storage/filepath/storage.go:398-481 | Whatever the answer, the object was rewritten some k <= 30 times, stamped each time, with k events; a set destination is the stored (or new, unstored) object and a fixpoint of the update; success without a destination means exactly that all 30 attempts wrote |
| `FileStorage.UpdateAnswersExactly` | pkg/storage/filepath/storage.go:398-481 | Seen from the object there was: success leaves the destination unset exactly if all 30 attempts would write, and an update that fails has written exactly if some first attempts write and the next one fails |
| `FileStorage.IdempotentUpdateWritesOnce` | pkg/storage/filepath/storage.go:398-481 | An idempotent update that ignores resource versions, under no precondition on them, writes at most once and sets the destination to the stored or new object |
| `FileStorage.VersionedUpdateWritesAndFails` | pkg/storage/filepath/storage.go:428-433 | With a precondition on the resource version an update that changes the object writes it and then reports a failed precondition |
| `FileStorage.UnsetDestination` | pkg/storage/filepath/storage.go:413-481 | An update that reaches no fixpoint writes 30 times and reports success with the destination unset |
| `FileStorage.WrittenTimesIs` | pkg/storage/filepath/storage.go:459-479 | k writes leave the k-fold stamped update in the one file and emit k events, the first saying whether the key was new |
| `FileStorage.MeetsExactly` | pkg/storage/filepath/storage.go:160-165 | A precondition holds exactly if the uid and the version it names are the object's |
| `FileStorage.CreatedExactly` | pkg/storage/filepath/storage.go:108-144 | A create takes an unused key only and stores the object under the new version, with one event |
| `FileStorage.RemovedExactly` | pkg/storage/filepath/storage.go:150-184 | A delete is refused for a missing key, then for another uid or version than asked for, then for an invalid object; otherwise the one file goes, with the event of what was there |
| `FileStorage.ListingHas` | pkg/storage/filepath/storage.go:292-383 | Listed is what is in the directory, or anywhere, and not older than asked for |
| `FileStorage.ListingSplits` | pkg/storage/filepath/storage.go:292-383 | In the order in which it is read |
| `FileStorage.Storage.Create` | pkg/storage/filepath/storage.go:108-144 | Refuses an existing key; otherwise stores the stamped object and notifies every watch of it |
| `FileStorage.Storage.Delete` | pkg/storage/filepath/storage.go:150-184 | Missing key, failed precondition, failed validation, or removal with the event of what was there |
| `FileStorage.Storage.GuaranteedUpdate` | pkg/storage/filepath/storage.go:398-481 | The loop computes the specified attempts, each write being sent to every watch in order |
| `FileStorage.Storage.GetList` | pkg/storage/filepath/storage.go:292-383 | Lists one directory, or from the root all, in order, passing over objects older than the version asked for |
| `FileStorage.Storage.Watch` | pkg/storage/filepath/storage.go:192-234 | Registers a fresh watch whose initial events are the selected listed objects for version 0, and none for typed lists |
| `WatchReplay.WatchSeesExactly` | pkg/storage/filepath/storage.go:192-234 | In every interleaving, for every key and a watch of any directory with any selection: what the watch has seen of the key is the selected object exactly if it was told of the key since, or had listed it as it was when started, and no modification since took the key out of the selection for good; or it had listed nothing there and nothing selected is there any more |
| `WatchReplay.FilteredWatchExactly` | pkg/storage/filepath/watchset.go:79-90 | A filtered watch on everything, started where it listed, has seen exactly the selected part of the store, if and only if no modification took a selected object out of the selection that was not selected again: it is not told of that |
| `WatchReplay.StaysRightExactly` | pkg/storage/filepath/watchset.go:79-90 | One event keeps what a filtered watch shows of a key right exactly if it does not take a shown object out of the selection |
| `WatchReplay.DirectoryWatchSeesOthers` | pkg/storage/filepath/watchset.go:52-58 | A watch of one directory shows a key of another exactly if the last selected event of that key since the start was not a deletion, as events go to every watch |
| `WatchReplay.WatchRebuildsStore` | pkg/storage/filepath/storage.go:192-234 | A watch that selects everything rebuilds the whole store exactly if no key was written to between listing and starting and left alone since with another outcome; keys of other directories, and all keys of typed lists, count as listed as absent |
| `WatchReplay.AtomicWatchRebuildsStore` | pkg/storage/filepath/storage.go:192-234 | A watch on everything, of an unstructured resource, that selects everything and is started where it listed rebuilds the store |
| `WatchSet.Watchers.NewWatch` | pkg/storage/filepath/watchset.go:31-43 | Hands out an id no started watch has |
| `WatchSet.Watchers.Start` | pkg/storage/filepath/watchset.go:69-92 | Adds the watch with its initial events to those that are notified |
| `WatchSet.Watchers.Stop` | pkg/storage/filepath/watchset.go:94-100 | Removes exactly that watch |
| `WatchSet.Watchers.NotifyWatchers` | pkg/storage/filepath/watchset.go:52-58 | Sends the event to every started watch, once |
| `WatchSet.ReplayOfKey` | pkg/storage/filepath/watchset.go:79-90 | Events that touch a key determine it whatever was there before; others leave it |
| `ResourceStrategy.WritesAreIsolated` | pkg/registry/grafanaresource/strategy.go:74-115 | After any interleaving of main and status writes the status is that of the last status write, body and user metadata are those of the last main write, and the generation is one more than the number of main writes that changed the body |
| `ResourceStrategy.WritesCommute` | pkg/registry/grafanaresource/status_strategy.go:46-70 | A main and a status write commute, up to resource version and managed fields |
| `ResourceStrategy.UpdatedParts` | pkg/registry/grafanaresource/strategy.go:88-115 | What a main update takes from the new and what from the old object, and when the generation grows |
| `ResourceStrategy.StatusUpdatedParts` | pkg/registry/grafanaresource/status_strategy.go:46-70 | What a status update takes from the new and what from the old object |
| `ResourceStrategy.PlainCreatedParts` | pkg/registry/grafanaresource/strategy.go:74-85 | Without the status subresource a created object keeps its status |
| `ResourceStrategy.PlainUpdatedParts` | pkg/registry/grafanaresource/strategy.go:88-115 | And an update replaces the status like any other field, and counts a change of it as one of the generation |
| `ResourceStrategy.PlainWritesReplace` | pkg/registry/grafanaresource/strategy.go:74-115 | So over any sequence of writes the object has the fields sent last and a generation of one more than the number of writes that changed any |
| `ResourceStrategy.CopyNonMetadata` | pkg/registry/grafanaresource/strategy.go:118-127 | Copies every field but the metadata |
| `ResourceStrategy.Strategy.PrepareForCreate` | pkg/registry/grafanaresource/strategy.go:74-85 | Drops the status where the subresource is installed and sets generation 1 |
| `ResourceStrategy.Strategy.PrepareForUpdate` | pkg/registry/grafanaresource/strategy.go:88-115 | The in-place form computes the specified content |
| `ResourceStrategy.StatusStrategy.PrepareForUpdate` | pkg/registry/grafanaresource/status_strategy.go:46-70 | The in-place form computes the specified content |
| `GrdStrategy.StoredVersionHistory` | pkg/registry/grafanaresourcedefinition/strategy.go:52-163 | Over every history of creation, spec updates and version-checked status commits: stored versions have no duplicates, only grow at the end, and hold the name of the first version flagged storage of every spec there ever was; the generation is one more than the number of spec changes |
| `GrdStrategy.RecordedExactly` | pkg/registry/grafanaresourcedefinition/strategy.go:86-93 | Recording adds at the end only the first version flagged storage, unless it is there |
| `GrdStrategy.CreatedParts` | pkg/registry/grafanaresourcedefinition/strategy.go:52-66 | What a created GRD takes from the request, and that its conditions and accepted names start empty |
| `GrdStrategy.UpdatedParts` | pkg/registry/grafanaresourcedefinition/strategy.go:69-95 | What an update takes from the request and what from the stored GRD |
| `GrdStrategy.StatusUpdatedParts` | pkg/registry/grafanaresourcedefinition/strategy.go:156-163 | What a status update takes: the status, and finalizers and annotations with it |
| `GrdStrategy.Definition.RecordStorageVersion` | pkg/registry/grafanaresourcedefinition/strategy.go:86-93 | Appends the first version flagged storage unless it is recorded |
| `GrdStrategy.Definition.PrepareForCreate` | pkg/registry/grafanaresourcedefinition/strategy.go:52-66 | Resets status and generation and records the storage version |
| `GrdStrategy.Definition.PrepareForUpdate` | pkg/registry/grafanaresourcedefinition/strategy.go:69-95 | Keeps the old status with the storage version recorded; the generation grows exactly if the spec changed |
| `GrdStrategy.Definition.PrepareForStatusUpdate` | pkg/registry/grafanaresourcedefinition/strategy.go:156-163 | Restores the spec and nothing else |
| `Helpers.HistoryTypes` | pkg/apihelpers/helpers.go:65-93 | Over any sequence of set and remove operations the condition list has at most one entry per type |
| `Helpers.HistoryContents` | pkg/apihelpers/helpers.go:65-93 | A type is present exactly if some operation set it and none removed it since, and its entry says what the last such operation said, whatever was done to other types |
| `Helpers.HistoryTransition` | pkg/apihelpers/helpers.go:65-81 | An entry's transition time is the non-zero time of the operation at which its status last changed, counting insertion |
| `Helpers.FindAfterSet` | pkg/apihelpers/helpers.go:65-81 | Setting a condition changes the entry of its type, keeping the transition time of an unchanged status, and no other |
| `Helpers.FindAfterRemove` | pkg/apihelpers/helpers.go:84-93 | Removing a type leaves every other type's entry |
| `Helpers.WithoutFinalizerMembers` | pkg/apihelpers/helpers.go:149-158 | Removing a finalizer removes it and nothing else |
| `Helpers.WithoutFinalizerSplits` | pkg/apihelpers/helpers.go:149-158 | The others stay in their order |
| `Helpers.WithoutFinalizerCounts` | pkg/apihelpers/helpers.go:149-158 | As often as they were there |
| `Helpers.RemoveSplits` | pkg/apihelpers/helpers.go:84-93 | Removing a condition leaves the others in their order |
| `Helpers.FindIsFirst` | pkg/apihelpers/helpers.go:95-103 | What is found is the first entry of the type, and there is none exactly if nothing is found |
| `Helpers.IsTrueExactly` | pkg/apihelpers/helpers.go:106-124 | A condition is true exactly if its first entry says True |
| `Helpers.EquivalentExactly` | pkg/apihelpers/helpers.go:126-136 | Conditions are equivalent exactly if nothing but their times differs |
| `Helpers.StorageVersionIsFirst` | pkg/apihelpers/helpers.go:170-179 | The storage version is the first version flagged storage, served or not |
| `Helpers.LookupsFindFirst` | pkg/apihelpers/helpers.go:160-198 | Served flag and subresources are those of the first version of the name |
| `Helpers.GrdObject.FindGRDCondition` | pkg/apihelpers/helpers.go:95-103 | The first condition of the type, or none |
| `Helpers.GrdObject.SetGRDCondition` | pkg/apihelpers/helpers.go:65-81 | The in-place form computes the specified list |
| `Helpers.GrdObject.RemoveGRDCondition` | pkg/apihelpers/helpers.go:84-93 | The loop computes the specified list |
| `Helpers.GrdObject.GRDRemoveFinalizer` | pkg/apihelpers/helpers.go:149-158 | The loop computes the specified list |

## Left out

- `NamingSafety.AcceptedNamesStayUnique`: the mutation cache never evicts, an object is named plural.group with a dotless plural (nothing in the repository validates this), and uniqueness between the names of one GRD is not claimed since the code does not enforce it.
- `NamingBound.CommitsAreBounded`: edits of status or annotations by users are no steps of the protocol; one clock reading serves both conditions of an outcome.
- `ServingInfo.GrdHandler.ServeResource`: status, scale, ref and history requests on instances are not modelled; the scale subresource is never wired.
- `Discovery.DiscoveryController.Publish`: what is written to the aggregated resource manager is not modelled.
- `Discovery.DiscoveryController.Sync`: what is written to the aggregated resource manager is not modelled.
- `Deletion.Rest.Delete`: delete validation and dry run are not modelled, later requests are left to the store, and nothing is written between reading the GRD and marking it.
- `Deletion.GrdFinalizer.DeleteInstances`: a refused namespace deletes nothing, and waiting for removal is one look at what is left.
- `DeletionProtocol.DeletionIsSafe`: a create of an instance is one step from the gate to the store, patch never creates, users do not edit the cleanup finalizer, and there is one server; whether the finalizer is always called again is not claimed, as its update handler ignores Terminating-only changes.
- `RegistrationProtocol.RemoteMatchesAtRest`: the API service lister is current and nobody else writes API services; with a stale lister an operation that comes too late is reported as success and not retried.
- `DiscoveryProtocol.VersionEntriesAreRight`: the aggregated discovery manager is not modelled; an initial sync that fails is retried from the queue instead of by the surrounding poll.
- `FileStorage.GuaranteedUpdateOutcome`: there is a single writer, the update is a pure function, and the codec round-trips; unreadable files are not modelled.
- `WatchReplay.WatchSeesExactly`: a create or delete, and each single write of an update, is one step together with its notification; generated versions need not be unique.
- `ApprovalProtocol.MemoIsSound`: the group of a GRD does not change; message texts are shortened.
- `Discovery.SortGroupDiscoveryByKubeAwareVersion`: stands for the library's sort; any total preorder on versions may be the rank.
- Nil and empty slices are one value, so deep equality and semantic deep equality coincide.
- HTTP handling, content negotiation, authorization, metrics and table conversion.
- Building REST storages, field managers and OpenAPI for a serving info; draining requests before teardown.
- Rate limiting and back-off of work queues; a queue is a set.
- Blocking of goroutines and channels in the watch set.
- Deleting a collection of GRDs, server-side apply, and more than one server.
- Certificates, generated clients and deep copies, options and deployment.
