# juju core logic in Dafny

A model of four pieces of juju, written as immutable datatypes with pure
functions and a few methods, plus the properties proved about them.

- **The in-memory model cache (`core/cache`).** The controller receives a
  stream of typed change and removal events. It creates models on demand.
  Each model keeps maps of applications, charms, machines, units and
  branches. Every cached entity embeds a `Resident`, which holds:
  - its removal message, fixed at the first receipt of details;
  - a stale flag, used by mark-and-sweep;
  - the workers registered with it.

  Hub publishes are an output list of messages. The machine entity follows
  `machine.go`: `InstanceId`, `setDetails`, `Units` and the seeding of
  `WatchContainers`. The code of the model and controller is not part of
  this model. Their behaviour is what `model_test.go` and
  `controller_test.go` assert of them:
  - lookups that fail with NotFound;
  - the report;
  - the config-read counter;
  - the config-hash cache and config-watcher dedup;
  - the machines watcher;
  - routing of events to models;
  - the notify hook;
  - mark-and-sweep.
- **Resource-deploy planning (`cmd/juju/resource/deploy.go`).** This part covers:
  - which supplied resource names are unknown;
  - which resources come from the charm store, and at what revision;
  - how validation failures aggregate;
  - how the name → pending-id map is assembled.

  The file system, Docker-detail checks and the resources API client are
  collaborator functions. The calls made to the client are recorded, so a
  proof can say "no client call before validation".
- **The credential-validity worker (`worker/credentialvalidator`).** This part covers:
  - classifying the model credential at start;
  - the decision to watch it;
  - the `Check` flag;
  - the loop as a fold over the events its `select` can receive;
  - the manifold's config checks, its start sequence, its inputs and its
    error filter.
- **The branch (model-generation) API facade
  (`apiserver/facades/client/modelgeneration`).** This part covers:
  - the permission gate;
  - one result per entity, dispatched by tag kind;
  - mapping NotFound to `false`;
  - the tracking/pending partition with its `"k/n"` progress text.

  Two support modules back it. `StringOrder` gives Go's string order and
  `set.Strings.SortedValues`. `Decimal` gives `%d` and its read-back.

Go map iteration order is unspecified. Each map walk therefore takes an
explicit `order` sequence that enumerates the map's keys exactly once
(`Errors.Enumerates`).

## Model

| member | source | states |
|---|---|---|
| CacheTypes.RegisterWorker | core/cache/machine.go:121 | registering hands out an id not already registered, adds exactly that id, and leaves the removal message and stale flag alone |
| CacheTypes.DeregisterWorker | core/cache/machine.go:124-128 | the function a registration returns removes exactly that id, keeps the worker set well formed, and leaves the removal message, the stale flag and the last issued id as they were |
| CacheTypes.Refresh | core/cache/machine.go:166-174 | the removal message is set on the first receipt only and kept afterwards; the resident is no longer stale; the workers are untouched |
| CacheMachine.Topic | core/cache/machine.go:195-197 | the topic is the instance topic whose name is the machine id, a colon, and the suffix |
| CacheMachine.TopicInjective | core/cache/machine.go:195-197 | one machine's topics differ for different suffixes, and machines with different ids never share a topic for one suffix |
| CacheMachine.InstanceId | core/cache/machine.go:52-60 | succeeds iff an instance id is recorded, returning it; otherwise NotProvisioned "machine <id> not provisioned" |
| CacheMachine.SetDetails | core/cache/machine.go:163-193 | the snapshot is replaced and the machine is not stale; the removal message is kept if set, otherwise it becomes RemoveMachine of the snapshot; "<id>:machine-provisioned" is published iff the instance id differs from the previous one, with the new id in the topic; the config hash is that of the new config, or "" when hashing fails |
| CacheMachine.RemovalMessageKept | core/cache/machine.go:166-172 | once a removal message is set, no run of later setDetails calls changes it |
| CacheMachine.RemovalMessageFromFirstReceipt | core/cache/machine.go:166-172 | after a run of setDetails calls on a fresh machine, the removal message names the first snapshot received |
| CacheMachine.LastWriteWins | core/cache/machine.go:174-176 | after a run of setDetails calls, the cached snapshot and hash are those of the last one, and the machine is not stale |
| CacheMachine.ProvisionedPublishes | core/cache/machine.go:176-181 | a run publishes exactly one message per change of instance id, and each message names the topic of an applied snapshot's machine |
| CacheMachine.Units | core/cache/machine.go:78-100 | the loop's result is the walk's outcome over the whole unit map: the units placed so far, or the first missing-principal error |
| CacheMachine.UnitsErrorSticks | core/cache/machine.go:92-94 | the walk returns at its first error: nothing visited later changes the outcome |
| CacheMachine.UnitsErrorIff | core/cache/machine.go:89-94 | the walk fails iff some visited subordinate has no principal in the unit map, and the failure is that subordinate's NotFound error |
| CacheMachine.UnitsMembership | core/cache/machine.go:85-98 | without an error, a unit is in the result iff it is a visited unit placed on the machine directly or through its principal |
| CacheMachine.UnitsPrefix | core/cache/machine.go:85-98 | the result only grows as the walk proceeds |
| CacheMachine.UnitsListsBothPlacements | core/cache/machine.go:86-97 | a subordinate on the machine whose principal is also on it is listed twice: there is no de-duplication |
| CacheMachine.InitialContainers | core/cache/machine.go:112-118 | the initial slice holds each model machine key exactly once when that machine's id matches "^<id>" followed by the container snippet, and nothing else |
| CacheMachine.ContainersChanged | core/cache/machine.go:120-122 | the watcher's feed adds exactly the incoming ids that match the container pattern, and loses nothing already pending |
| CacheMachine.RegisterContainersWatcherAsWritten | core/cache/machine.go:121-131 | the code as written registers twice: the workers gain exactly the two fresh ids lastWorker+1 and lastWorker+2, and the deregistration kept is the first |
| CacheMachine.RegisterContainersWatcher | core/cache/machine.go:121-129 | registering once adds exactly the id the watcher's death deregisters |
| CacheMachine.ContainersWatcherLeaksAsWritten | core/cache/machine.go:121-131 | as written, a dead container watcher is still registered with the machine |
| CacheMachine.ContainersWatcherReleased | core/cache/machine.go:121-129 | with one registration, the machine's workers are back to what they were once the watcher dies |
| CacheMachine.WatchContainers | core/cache/machine.go:105-133 | the watcher is seeded with exactly this machine's containers and registered once with the machine, whose details are untouched |
| CacheModel.Project | core/cache/model_test.go:95-137 | the fields a hash covers: all for the empty key set, otherwise the named fields that are present, with their values |
| CacheModel.Lookup | core/cache/model_test.go:155-200 | a lookup succeeds iff the key is cached, returning that entity; otherwise NotFound "<kind> \"<key>\"" |
| CacheModel.Report | core/cache/model_test.go:25-36 | the report has exactly the keys name "owner/name", life, and one count per entity map, each equal to that map's size |
| CacheModel.ReadConfig | core/cache/model_test.go:38-58 | reading the config returns the snapshot's config and increments the config-read counter by exactly one, with nothing else changed |
| CacheModel.ConfigHash | core/cache/model_test.go:139-153 | the hash is that of the config restricted to the key set; it is a hit when the set is cached and a miss that stores it otherwise; the cache stays coherent |
| CacheModel.NotifyConfigWatcher | core/cache/model_test.go:72-137 | one watcher recomputes its hash through the cache and gets a signal iff that hash changed; the other watchers are untouched |
| CacheModel.NotifyConfigWatchers | core/cache/model_test.go:72-137 | the config-change publish keeps the cache coherent, keeps the set of watchers and never reads the config counter |
| CacheModel.NotifyConfigWatchersEffect | core/cache/model_test.go:72-137 | after the publish, each reached watcher holds the hash of its fields and has a signal waiting iff it had one or its hash changed |
| CacheModel.SetDetails | core/cache/model_test.go:46-93 | the snapshot is replaced with one full-config hash miss; the config-change topic is published iff the full hash changed, and only then do watchers re-check; the entity maps are unchanged |
| CacheModel.ConfigWatcherNotifiedIff | core/cache/model_test.go:72-137 | after SetDetails a watcher has a signal waiting iff it had one already, or both the full hash and the hash of its own fields changed |
| CacheModel.ConfigWatcherIgnoresOtherFields | core/cache/model_test.go:113-137 | a watcher over some fields is not signalled by a change that leaves those fields alone |
| CacheModel.ConfigWatcherSeesFieldChange | core/cache/model_test.go:95-111 | a watcher whose fields change is signalled and takes the new hash |
| CacheModel.NewModelReport | core/cache/model_test.go:25-49 | a fresh model reports "owner/name", its life and zero counts, has paid exactly one hash miss and returns its config |
| CacheModel.WatchConfig | core/cache/model_test.go:63-93 | the watcher is registered under a fresh id, seeded from the hash cache, and starts with its initial signal waiting; only the resident's workers, the config watchers, the hash cache and the gauges change, and the resident's removal message and stale flag are kept |
| CacheModel.ConfigHashKeyOrderIndependent | core/cache/model_test.go:139-153 | two watchers naming the same fields in different orders share one cache entry: the second adds one hit and no miss |
| CacheModel.TakeConfigSignal | core/cache/model_test.go:72-93 | receiving takes the waiting signal, if any, and leaves no signal behind |
| CacheModel.StopConfigWatcher | core/cache/model_test.go:63-70 | stopping removes the watcher and deregisters exactly its id; nothing else in the model changes, and the resident's removal message and stale flag are kept |
| CacheModel.TopLevel | core/cache/model_test.go:300-316 | the watcher's filter keeps exactly the ids that are not containers |
| CacheModel.WatchMachines | core/cache/model_test.go:219-235 | the machines watcher gets a fresh resident id and its initial event lists exactly the non-container machines |
| CacheModel.TakeMachineChanges | core/cache/model_test.go:237-298 | receiving delivers everything queued since the last receive and empties the queue |
| CacheModel.StopMachinesWatcher | core/cache/model_test.go:219-235 | stopping removes exactly that watcher, keeps the other machines watchers, and deregisters exactly its id; nothing else in the model changes |
| CacheModel.FeedMachineWatchers | core/cache/model_test.go:237-283 | the add/remove-machine publish reaches every machines watcher and changes nothing else |
| CacheModel.Upsert | core/cache/controller_test.go:82-214 | an entity change creates the entity on first receipt, then refreshes it, keeping its removal message; other entries are untouched |
| CacheModel.PutMachine | core/cache/machine.go:163-193 | the machine map after a machine change holds the machine as setDetails leaves it, created from the zero snapshot on first sight |
| CacheModel.UpdateMachine | core/cache/model_test.go:237-298 | a new machine is announced with its id first; a known machine publishes only what setDetails publishes |
| CacheModel.RemoveMachineFrom | core/cache/model_test.go:270-283 | an absent id changes nothing; a present machine goes and its id is announced |
| CacheModel.MachinesWatcherEvents | core/cache/model_test.go:237-298 | adding a top-level machine is reported; adding a container or re-applying a known machine is not; removing a top-level machine is reported |
| CacheModel.MarkAll | core/cache/controller_test.go:216-252 | marking makes every entity of a map stale and changes nothing else |
| CacheModel.Mark | core/cache/controller_test.go:216-252 | the model and every entity it holds become stale |
| CacheModel.ApplyEntityChange | core/cache/controller_test.go:82-214 | an entity change adds its key to its own kind's map and leaves every other map's keys, the model's resident and its snapshot as they were |
| CacheModel.EntityChangeRefreshes | core/cache/machine.go:163-175 | after an entity change its target is present and not stale, and every other entity keeps its resident |
| CacheModel.FirstEntityKeys | core/cache/controller_test.go:82-95 | on a model created on demand, an entity change leaves exactly its own key in its own kind's map and every other map empty |
| CacheModel.ApplyEntityRemoval | core/cache/controller_test.go:97-214 | a removal takes out its key from its own kind's map only; removing an absent entity changes nothing |
| CacheModel.RemovalFor | core/cache/controller_test.go:216-252 | the removal event for an entity is a removal that addresses that entity in that model |
| CacheModel.RemovalsWfAt | core/cache/controller_test.go:216-252 | a stored removal message is the removal of the entity storing it |
| CacheModel.EmptyModelWf | core/cache/controller_test.go:46-65 | a model created on demand satisfies the removal-message invariant |
| CacheModel.SetDetailsKeepsWf | core/cache/controller_test.go:46-65 | a model change keeps the removal-message invariant |
| CacheModel.EntityChangeKeepsWf | core/cache/controller_test.go:82-214 | an entity change keeps the removal-message invariant |
| CacheModel.MachineChangeKeepsWf | core/cache/controller_test.go:150-162 | a machine change keeps the removal-message invariant |
| CacheModel.UpsertKeepsWf | core/cache/controller_test.go:82-214 | a change to an application, charm, unit or branch keeps the removal-message invariant |
| CacheModel.ApplicationChangeKeepsWf | core/cache/controller_test.go:82-95 | an application change stores the application's own removal and keeps every other stored removal |
| CacheModel.CharmChangeKeepsWf | core/cache/controller_test.go:117-129 | a charm change stores the charm's own removal and keeps every other stored removal |
| CacheModel.UnitChangeKeepsWf | core/cache/controller_test.go:183-195 | a unit change stores the unit's own removal and keeps every other stored removal |
| CacheModel.BranchChangeKeepsWf | core/cache/model_test.go:202-217 | a branch change stores the branch's own removal and keeps every other stored removal |
| CacheModel.EntityRemovalKeepsWf | core/cache/controller_test.go:97-214 | an entity removal keeps the removal-message invariant |
| CacheModel.MarkKeepsWf | core/cache/controller_test.go:216-252 | marking keeps the removal-message invariant |
| CacheModel.UnitReturnsCopy | core/cache/model_test.go:179-194 | after a unit change, the unit is found and its ports are the ports of the change |
| CacheModel.BranchReturnsCopy | core/cache/model_test.go:202-217 | after a branch change, the branch is found and its assigned units are those of the change |
| CacheController.ValidateConfig | core/cache/controller_test.go:24-34 | the config is invalid iff Changes is nil, with NotValid "nil Changes not valid" |
| CacheController.Model | core/cache/controller_test.go:46-80 | a model lookup succeeds iff the UUID is cached, otherwise NotFound |
| CacheController.Report | core/cache/controller_test.go:36-65 | the report has one entry per cached model, equal to that model's report |
| CacheController.NewControllerEmpty | core/cache/controller_test.go:36-44 | a new controller has no model UUIDs, an empty report, no model and is not marked |
| CacheController.Apply | core/cache/controller_test.go:46-214 | a change creates its model if absent; RemoveModel drops the model; other removals keep the set of models; models other than the addressed one are untouched |
| CacheController.ApplyAllSnoc | core/cache/controller_test.go:302-314 | applying a run of events and then one more is the same as applying the extended run |
| CacheController.Process | core/cache/controller_test.go:262-314 | one turn applies the event, then calls the hook, when set, with that same event in the new state |
| CacheController.NotifyOncePerChange | core/cache/controller_test.go:262-314 | the hook sees every processed event exactly once, in order, each in the state right after that event was applied |
| CacheController.NoHookNoNotify | core/cache/controller_test.go:262-314 | without a hook nothing is notified |
| CacheController.WfTarget | core/cache/controller_test.go:216-252 | in a well-formed controller, a stored removal message is a removal that targets the resident storing it |
| CacheController.NewControllerWf | core/cache/controller_test.go:36-44 | a new controller is well formed |
| CacheController.ApplyKeepsWf | core/cache/controller_test.go:46-214 | every event keeps the controller well formed |
| CacheController.ApplyAllKeepsWf | core/cache/controller_test.go:46-214 | every run of events keeps the controller well formed |
| CacheController.ReportCount | core/cache/controller_test.go:82-214 | the report's count for an entity kind is the number of entities of that kind in the model |
| CacheController.ChangeCreates | core/cache/controller_test.go:82-95 | an entity change makes its target and its model live; on a new controller that kind's count becomes 1 and every other count stays 0 |
| CacheController.EntityChangeLive | core/cache/controller_test.go:82-95 | an entity change makes its target and its model live |
| CacheController.EntityChangeCounts | core/cache/controller_test.go:82-95 | on a new controller an entity change makes its kind's count 1 and leaves every other count 0 |
| CacheController.EntityChangeCount | core/cache/controller_test.go:82-95 | the same, for one kind |
| CacheController.RemovalStep | core/cache/controller_test.go:97-115 | after a removal, a location is live iff it was live and the removal does not hit it or its model; removing something absent changes nothing |
| CacheController.RemoveModelStep | core/cache/controller_test.go:67-80 | after a model removal, a location is live iff it was live and is not in that model |
| CacheController.EntityRemovalStep | core/cache/controller_test.go:97-115 | after an entity removal in a present model, a location is live iff it was live and is not the removed entity |
| CacheController.RemoveDecrements | core/cache/controller_test.go:97-214 | removing a present entity lowers its kind's count by one and deregisters it |
| CacheController.AddThenRemoveModel | core/cache/controller_test.go:67-80 | a model change followed by its removal leaves no model UUIDs, an empty report, and a NotFound lookup |
| CacheController.RemovalsLiveness | core/cache/controller_test.go:97-214 | removals never create anything: after a run of removals a location is live iff it was live and no removal in the run hits it |
| CacheController.MarkModels | core/cache/controller_test.go:216-252 | marking the controller marks every model and keeps the set of models |
| CacheController.Mark | core/cache/controller_test.go:216-252 | Mark sets Marked, keeps every live location, and makes every resident stale |
| CacheController.MarkKeepsWf | core/cache/controller_test.go:216-252 | Mark keeps the controller well formed |
| CacheController.InModelStaleRemovals | core/cache/controller_test.go:216-252 | a stale entity's removal message belongs to its model's sweep set |
| CacheController.KindStaleSound | core/cache/controller_test.go:216-252 | a stale message of one kind names a swept entity that stored it |
| CacheController.ModelStaleSound | core/cache/controller_test.go:216-252 | a model's own stale message is the removal of that swept model |
| CacheController.StaleRemovalsSound | core/cache/controller_test.go:216-252 | every message in the sweep set was stored by a swept resident at the message's own target |
| CacheController.StaleRemovalsComplete | core/cache/controller_test.go:216-252 | every swept resident's message is in the sweep set |
| CacheController.StaleRemovalsExact | core/cache/controller_test.go:216-252 | a message is in the sweep set iff a swept resident at its target stored it |
| CacheController.OrderByRank | core/cache/controller_test.go:235-239 | the output lists each event of the set exactly once, children before parents |
| CacheController.Sweep | core/cache/controller_test.go:216-252 | sweep emits each stale resident's removal exactly once: units, then machines, then applications, then charms, then models; it applies them and unmarks the controller |
| CacheController.SweepOutcome | core/cache/controller_test.go:216-252 | after sweep, a location survives iff it was live, is not swept, and (for an entity) its model is not swept |
| CacheController.StaleRemovalsAreRemovals | core/cache/controller_test.go:216-252 | every event of the sweep set is a removal |
| CacheController.SweptIsHit | core/cache/controller_test.go:216-252 | a swept entity, or an entity of a swept model, is hit by some sweep event |
| CacheController.UnsweptIsMissed | core/cache/controller_test.go:216-252 | no sweep event hits an entity that is neither swept nor in a swept model |
| CacheController.MarkThenSweepRemovesAll | core/cache/controller_test.go:216-252 | with no changes between Mark and Sweep, no models remain once every model has received its ModelChange |
| CacheController.ChangeStep | core/cache/machine.go:163-175 | one change makes its target live and not stale, keeps every other live resident as it was, and whatever it creates (the target, or its model created on demand) starts out not stale |
| CacheController.MarkThenChanges | core/cache/controller_test.go:216-252 | after Mark and a run of changes, everything live before Mark is still live, and a live resident is stale iff it was live before Mark and no change in the run addressed it |
| CacheController.UnstaleSweepsNothing | core/cache/controller_test.go:216-252 | when no live resident is stale, sweep emits nothing and changes nothing |
| CacheController.RefreshedSweepRemovesNothing | core/cache/controller_test.go:216-252 | after Mark and a run of changes addressing every resident live at Mark, sweep emits nothing and changes nothing |
| ResourceDeploy.MetaErrors | cmd/juju/resource/deploy.go:170-175 | there is no failure iff every walked metadata validates; each collected failure is the Validate error of some walked metadata |
| ResourceDeploy.MetaErrorsFrom | cmd/juju/resource/deploy.go:170-175 | the failures collected from a position on are, one for one and in order, the Validate errors at the failing positions from there |
| ResourceDeploy.MetaErrorsExact | cmd/juju/resource/deploy.go:170-175 | the collected failures are exactly the Validate errors of the failing metadata, in walk order, one per failing position |
| ResourceDeploy.Messages | cmd/juju/resource/deploy.go:180-183 | one message per error, in order, each that error's message |
| ResourceDeploy.ValidateResources | cmd/juju/resource/deploy.go:169-187 | no failure gives nil; exactly one is returned as it is; several give NotValid with the messages joined by ", " |
| ResourceDeploy.ValidateResourcesJoinsAll | cmd/juju/resource/deploy.go:169-187 | in terms of the failing positions of the walk: none gives nil, one gives that position's error, several give NotValid joining every failing position's message in walk order |
| ResourceDeploy.UnknownNames | cmd/juju/resource/deploy.go:258-268 | a name is collected iff it is walked and has no metadata |
| ResourceDeploy.UnknownNamesFrom | cmd/juju/resource/deploy.go:258-268 | the names collected from a position on are, one for one and in order, the walked names at the positions from there that have no metadata |
| ResourceDeploy.UnknownNamesExact | cmd/juju/resource/deploy.go:258-268 | the collected names are exactly the walked names at the positions without metadata, in walk order, one per position |
| ResourceDeploy.CheckExpectedResources | cmd/juju/resource/deploy.go:257-276 | fails iff some file or revision name has no metadata; one gives `unrecognized resource "x"`, several give `unrecognized resources: a, b` |
| ResourceDeploy.OneUnknownName | cmd/juju/resource/deploy.go:258-263 | when exactly one file name lacks metadata, the file walk collects that name and nothing else |
| ResourceDeploy.NoUnknownNames | cmd/juju/resource/deploy.go:263-268 | a walk over names that all have metadata collects nothing |
| ResourceDeploy.CheckExpectedOneUnknown | cmd/juju/resource/deploy.go:257-271 | when exactly one file name lacks metadata and every revision name has it, checkExpectedResources fails with `unrecognized resource` and that name quoted |
| ResourceDeploy.CheckFile | cmd/juju/resource/deploy.go:158-167 | a missing file and an unreadable one give their cause annotated with different prefixes; a readable file passes |
| ResourceDeploy.DetailError | cmd/juju/resource/deploy.go:142-153 | file values are stat-checked, image values are checked as docker details, and any other type gives "unknown resource: <name>" |
| ResourceDeploy.ValidateResourceDetails | cmd/juju/resource/deploy.go:140-156 | passes iff every supplied value passes; otherwise returns the first failure in walk order |
| ResourceDeploy.StoreResourcesOf | cmd/juju/resource/deploy.go:193-212 | a resource is yielded iff it is the store resource of some walked name without an upload |
| ResourceDeploy.StoreResourcesFrom | cmd/juju/resource/deploy.go:193-212 | the resources yielded from a position on are, one for one and in order, the store resources of the names from there without an upload |
| ResourceDeploy.StoreResourcesExact | cmd/juju/resource/deploy.go:193-212 | the yielded resources are exactly the store resources of the walked names without an upload, in walk order, one per such name |
| ResourceDeploy.CharmStoreResources | cmd/juju/resource/deploy.go:192-213 | a resource is listed iff its name has no upload; each has OriginStore and revision revisions[name] when given, else -1 |
| ResourceDeploy.UploadCall | cmd/juju/resource/deploy.go:215-222 | an upload always sends OriginUpload with the named resource's metadata, its value and its data |
| ResourceDeploy.UploadOne | cmd/juju/resource/deploy.go:122-134 | a file is opened before the upload, and a failed open makes no client call; an unknown type fails with "unknown resource type to upload" |
| ResourceDeploy.UploadValues | cmd/juju/resource/deploy.go:117-135 | on success the pending keys grow by exactly the walked names and there is one call per name; every call made is, in walk order, that name's upload |
| ResourceDeploy.UploadValuesOutcome | cmd/juju/resource/deploy.go:117-135 | the loop succeeds iff every value uploads; otherwise it fails with the first failing upload's error, after the calls of the uploads up to and including it |
| ResourceDeploy.UploadValuesIds | cmd/juju/resource/deploy.go:117-135 | on success with distinct walked names, each name's upload succeeded and the pending map holds the id that upload returned |
| ResourceDeploy.PendingFromIds | cmd/juju/resource/deploy.go:111-114 | the pending map from the ids has exactly the store resource names as keys |
| ResourceDeploy.PendingFromIdsByPosition | cmd/juju/resource/deploy.go:111-114 | with distinct names, each store resource maps to the id at its own position |
| ResourceDeploy.Upload | cmd/juju/resource/deploy.go:91-138 | the three validations run in order and any failure returns that error with no client call; a client call or a result implies every validation passed |
| ResourceDeploy.UploadAll | cmd/juju/resource/deploy.go:104-110 | with store resources, the first call is AddPendingResources for them, and its failure is returned after that single call |
| ResourceDeploy.UploadAllOutcome | cmd/juju/resource/deploy.go:104-137 | once the store resources are pending, or there are none, the result is the upload loop's outcome: success iff every value uploads, otherwise the first failing upload's error |
| ResourceDeploy.UploadAfterValidation | cmd/juju/resource/deploy.go:104-137 | once the validations pass, upload returns the AddPendingResources error after that one call, or else succeeds iff every value uploads and otherwise fails at the first failing upload |
| ResourceDeploy.UploadKeys | cmd/juju/resource/deploy.go:104-137 | on success the keys are the store resource names plus the supplied value names |
| ResourceDeploy.UploadCalls | cmd/juju/resource/deploy.go:104-135 | on success the calls are one AddPendingResources, made only when store resources exist, then one upload per value in walk order |
| ResourceDeploy.UploadAllKeys | cmd/juju/resource/deploy.go:104-137 | once the validations have passed, a successful upload maps the store resource names and the supplied names |
| ResourceDeploy.UploadAllCalls | cmd/juju/resource/deploy.go:104-135 | once the validations have passed, a successful upload makes the AddPendingResources call (when needed) and then one upload per value in walk order |
| ResourceDeploy.UploadValuesCalls | cmd/juju/resource/deploy.go:117-135 | a successful upload loop makes one upload-origin call per value, in walk order, with that value's metadata and file name |
| ResourceDeploy.StoreIdsByPosition | cmd/juju/resource/deploy.go:111-114 | with metadata keyed by name, each store resource's pending id is the id at its position in the reply |
| ResourceDeploy.StoreResourcesDistinct | cmd/juju/resource/deploy.go:192-213 | with metadata keyed by name, the store resources have distinct names |
| ResourceDeploy.UploadValuesKeeps | cmd/juju/resource/deploy.go:117-135 | the upload loop leaves entries of names it does not visit alone |
| CredentialWorker.Validate | worker/credentialvalidator/worker.go:48-53 | the config is invalid iff the facade is nil, with NotValid "nil Facade not valid" |
| CredentialWorker.ModelCredential | worker/credentialvalidator/worker.go:166-179 | facade errors pass through; ErrModelMissingCredentialRequired iff the credential is neither set nor valid; otherwise the credential |
| CredentialWorker.NewWorker | worker/credentialvalidator/worker.go:57-109 | starts iff the config is valid, the credential read succeeds, and either it has no name or the watch succeeds; the calls are exactly ModelCredential, then WatchCredential for a named credential; a failed watch is returned; a started worker runs with the credential it read |
| CredentialWorker.WatchFailureOnlyDiffers | worker/credentialvalidator/worker.go:91-96 | for a named credential, a failed watch returns its error after the same calls a successful start makes, and a successful one starts a watching worker |
| CredentialWorker.UnnamedIgnoresWatch | worker/credentialvalidator/worker.go:91-106 | without a credential name, what the watch would return does not change the outcome |
| CredentialWorker.Check | worker/credentialvalidator/worker.go:133-135 | the flag is the validity captured at start |
| CredentialWorker.CheckIsStartValidity | worker/credentialvalidator/worker.go:57-109 | after any run of events, a started worker's flag is the validity of the credential read when it was created |
| CredentialWorker.Step | worker/credentialvalidator/worker.go:137-164 | a dying signal or a closed change channel stops the loop; a change re-reads the credential once and keeps running iff the read succeeds with the initial validity; a flip stops with ErrValidityChanged, a read error with that error |
| CredentialWorker.Run | worker/credentialvalidator/worker.go:137-164 | the credential and the watching flag, and so Check's answer, never change while the loop runs |
| CredentialWorker.StopIsFinal | worker/credentialvalidator/worker.go:137-164 | a stopped loop stays stopped with the same reason and makes no call |
| CredentialWorker.RunsWhileSettled | worker/credentialvalidator/worker.go:151-161 | a watching worker keeps running through changes iff every re-read succeeds with the initial validity, at one ModelCredential call per change |
| CredentialWorker.FlipStops | worker/credentialvalidator/worker.go:159-161 | the first change that flips the validity stops the worker with ErrValidityChanged, whatever follows |
| CredentialWorker.RunPrefixSettled | worker/credentialvalidator/worker.go:151-161 | changes that keep the validity leave the validator as it was |
| CredentialWorker.UnwatchedOnlyDies | worker/credentialvalidator/worker.go:138-150 | a worker without a watcher ignores every event except the dying signal |
| CredentialWorker.ClosedStops | worker/credentialvalidator/worker.go:147-150 | a watching worker whose change channel closes after settled changes stops with the dying error, whatever follows |
| CredentialManifold.Validate | worker/credentialvalidator/manifold.go:25-36 | empty APICallerName, then nil NewFacade, then nil NewWorker, each with its own NotValid message; valid iff none applies |
| CredentialManifold.Start | worker/credentialvalidator/manifold.go:39-58 | validation comes before the API caller is fetched; every failure propagates with no worker; NewWorker receives exactly the facade NewFacade produced |
| CredentialManifold.FilterErrors | worker/credentialvalidator/manifold.go:70-76 | only ErrValidityChanged becomes ErrBounce; nil stays nil; every other error passes through unchanged |
| CredentialManifold.NewManifold | worker/credentialvalidator/manifold.go:61-68 | the manifold's inputs are exactly the API caller name |
| CredentialManifold.ValidityChangeBounces | worker/credentialvalidator/manifold.go:70-76 | a validity flip stops the worker with an error the filter turns into a bounce |
| CredentialManifold.MissingCredentialNotBounced | worker/credentialvalidator/manifold.go:70-76 | the filter passes ErrModelMissingCredentialRequired through unchanged, so it does not bounce |
| StringOrder.BelowIrreflexive | apiserver/facades/client/modelgeneration/modelgeneration.go:237-241 | no string sorts before itself |
| StringOrder.BelowTransitive | apiserver/facades/client/modelgeneration/modelgeneration.go:237-241 | the string order is transitive |
| StringOrder.BelowTotal | apiserver/facades/client/modelgeneration/modelgeneration.go:237-241 | of two different strings one sorts before the other |
| StringOrder.BelowAsymmetric | apiserver/facades/client/modelgeneration/modelgeneration.go:237-241 | two strings never sort before each other |
| StringOrder.Insert | apiserver/facades/client/modelgeneration/modelgeneration.go:237-241 | inserting into a sorted listing keeps it sorted and adds exactly the new name |
| StringOrder.InsertBefore | apiserver/facades/client/modelgeneration/modelgeneration.go:237-241 | a name below the head of a sorted listing can be put in front of it |
| StringOrder.SortedDistinct | apiserver/facades/client/modelgeneration/modelgeneration.go:237-241 | the listing is strictly ascending and holds exactly the names of the input |
| StringOrder.SortedUnique | apiserver/facades/client/modelgeneration/modelgeneration.go:237-241 | two sorted listings with the same members are equal |
| StringOrder.HeadIsLeast | apiserver/facades/client/modelgeneration/modelgeneration.go:237-241 | the head of a sorted listing does not sort after the head of another listing with the same members |
| StringOrder.SortedDistinctBySet | apiserver/facades/client/modelgeneration/modelgeneration.go:237-241 | the sorted listing depends only on which names occur, not on their order or repetition |
| StringOrder.SortedDistinctEntries | apiserver/facades/client/modelgeneration/modelgeneration.go:237-241 | a sorted listing has no repeated entry |
| Decimal.DigitChar | apiserver/facades/client/modelgeneration/modelgeneration.go:222 | the character of a digit is a digit character whose value is that digit |
| Decimal.Itoa | apiserver/facades/client/modelgeneration/modelgeneration.go:222 | %d of a count is a non-empty digit string with no leading zero |
| Decimal.ItoaRoundTrip | apiserver/facades/client/modelgeneration/modelgeneration.go:222 | reading the printed digits back gives the number |
| Decimal.ItoaInjective | apiserver/facades/client/modelgeneration/modelgeneration.go:222 | distinct counts print differently |
| Decimal.Progress | apiserver/facades/client/modelgeneration/modelgeneration.go:222 | the progress text is a non-empty digit string, a slash, and a non-empty digit string |
| Decimal.ParseProgress | apiserver/facades/client/modelgeneration/modelgeneration.go:222 | a successful parse gives counts whose progress text is the input |
| Decimal.ProgressRoundTrip | apiserver/facades/client/modelgeneration/modelgeneration.go:222 | the progress text of two counts parses back to those counts |
| Decimal.SplitDigits | apiserver/facades/client/modelgeneration/modelgeneration.go:222 | the first slash after a digit string splits at that string |
| Decimal.SplitAtSlashRecovers | apiserver/facades/client/modelgeneration/modelgeneration.go:222 | the two sides of a split, joined around the slash, give back the text |
| Decimal.ItoaOfDigits | apiserver/facades/client/modelgeneration/modelgeneration.go:222 | a digit string without a leading zero is what %d prints for its value |
| Decimal.LeadingDigitPositive | apiserver/facades/client/modelgeneration/modelgeneration.go:222 | a digit string other than "0" without a leading zero denotes at least 1 |
| ModelGeneration.NewModelGenerationAPI | apiserver/facades/client/modelgeneration/modelgeneration.go:46-71 | construction fails with ErrPerm iff the authorizer is not a client; otherwise a superuser lookup error is returned, or the API with that admin flag |
| ModelGeneration.HasAdminAccess | apiserver/facades/client/modelgeneration/modelgeneration.go:73-79 | a NotFound permission lookup means (false, nil); other errors pass through; otherwise the answer |
| ModelGeneration.Gate | apiserver/facades/client/modelgeneration/modelgeneration.go:88-90 | passes iff the caller is a model admin or a controller admin; a lookup error is returned; otherwise ErrPerm |
| ModelGeneration.AddBranch | apiserver/facades/client/modelgeneration/modelgeneration.go:82-98 | an invalid name is put in the result and model.AddBranch is not called; otherwise it is called once with that name and user |
| ModelGeneration.TrackOne | apiserver/facades/client/modelgeneration/modelgeneration.go:117-134 | application tags assign all units, unit tags assign one unit, and parse failures or other kinds give an error for that entry |
| ModelGeneration.TrackBranch | apiserver/facades/client/modelgeneration/modelgeneration.go:102-136 | after the gate, a missing branch fails the call; otherwise there is one result per entity, in order, each that entity's outcome |
| ModelGeneration.CommitBranch | apiserver/facades/client/modelgeneration/modelgeneration.go:140-162 | after the gate, a missing branch and a failed commit go in the result's error; a commit's generation id goes in its result |
| ModelGeneration.Pending | apiserver/facades/client/modelgeneration/modelgeneration.go:237-241 | exactly the names of allUnits that are not tracking |
| ModelGeneration.AppEntry | apiserver/facades/client/modelgeneration/modelgeneration.go:216-244 | progress is "len(tracking)/len(allUnits)"; the detailed lists are the sorted distinct tracking and pending units, and are empty when not detailed |
| ModelGeneration.AppEntries | apiserver/facades/client/modelgeneration/modelgeneration.go:214-245 | the entries of the walked applications, in order, or the first lookup failure |
| ModelGeneration.AppEntriesOkIff | apiserver/facades/client/modelgeneration/modelgeneration.go:214-245 | walking the applications succeeds iff every application's entry can be built |
| ModelGeneration.OneBranchInfoShape | apiserver/facades/client/modelgeneration/modelgeneration.go:206-252 | the info carries the branch's name, creation time and creator, and one entry per application in walk order; it succeeds iff every application's entry can be built |
| ModelGeneration.NamedBranches | apiserver/facades/client/modelgeneration/modelgeneration.go:182-194 | the named branches in order, or the error of the first that is missing |
| ModelGeneration.BranchInfosOutcome | apiserver/facades/client/modelgeneration/modelgeneration.go:196-201 | the infos are reported iff every branch's info builds, each at its branch's position; otherwise the first failing branch's error |
| Errors.AllOk | apiserver/facades/client/modelgeneration/modelgeneration.go:196-201 | a loop that returns at the first error yields every value in order when no step fails, and otherwise the first failure |
| ModelGeneration.BranchInfo | apiserver/facades/client/modelgeneration/modelgeneration.go:168-204 | after the gate, with names every named branch must exist and the first missing one is an error result; with no names every branch is looked up; once the branches are found, the result has no error iff every info builds, one info per branch in order, and otherwise the first failing info's error with no generations |
| ModelGeneration.HasActiveBranch | apiserver/facades/client/modelgeneration/modelgeneration.go:256-276 | after the gate, found is true, NotFound is false with no error, and any other error goes in the result |
| ModelGeneration.DeniedEverywhere | apiserver/facades/client/modelgeneration/modelgeneration.go:88-90 | every branch operation answers ErrPerm to a caller who is neither a model admin nor a controller admin |
| ModelGeneration.ControllerAdminSuffices | apiserver/facades/client/modelgeneration/modelgeneration.go:73-79 | a not-found model permission still lets a controller admin through the gate |
| ModelGeneration.DetailedListsCanonical | apiserver/facades/client/modelgeneration/modelgeneration.go:237-241 | the detailed unit lists do not depend on the order in which state lists the units |
| ModelGeneration.ProgressReadsBack | apiserver/facades/client/modelgeneration/modelgeneration.go:222 | the progress text parses back to the number of tracking units over the number of all units |

## Left out

- Goroutines, channels, mutexes, tomb and catacomb lifecycles, `Kill` and `Wait`
  are not modelled. Watchers are state with a queue of pending ids or a
  pending-signal flag, and the worker loop is a fold over received events.
  Hub fan-out is an ordered list of published messages.
- The config hash (YAML serialisation plus digest) and `names.ContainerSnippet`
  / `names.IsContainerMachine` are abstract collaborator functions in `Env`.
  Failure to compile the container regexp is not modelled, since the pattern
  is a plain prefix followed by the snippet.
- Prometheus gauges are plain counters. The config-read counter and the
  hash hit and miss counters are kept; nothing else is.
- The implementation of the cache's Model and Controller is not part of this
  model. They are modelled only as far as `model_test.go` and
  `controller_test.go` assert. The position of branches in the sweep order is
  not pinned by any test; here they go first.
- CacheController.Sweep: an implicitly created model that never received a
  ModelChange has no removal message, and sweep leaves it in place. The tests
  do not say what happens to such a model.
- `WatchLXDProfileVerificationNeeded` and the other machine watchers in
  `machine.go` are outside the modelled core.
- `DeployResources` (`cmd/juju/resource/deploy.go:63-89`) only builds the
  uploader and calls `upload`. It is not modelled; `Upload` starts from a
  built uploader. The charm id and macaroon passed to
  `AddPendingResources` are not carried.
- File opening, `os.Stat`, Docker-detail checks, JSON encoding of image
  details, `Meta.Validate` and both resources-client calls are collaborator
  functions. JSON marshalling is taken never to fail.
- `errors.Trace` is the identity here. The location it adds is not part of an
  error's value.
- Errors are compared structurally (kind and message). Go compares error
  identity or cause, which here coincides for the sentinel errors.
- Strings are sequences of characters, so the sort order is on characters.
  Go compares bytes, which agrees for ASCII names.
- The `%T` type name in TrackBranch's "expected application or unit" error is
  carried as a field of the tag. Tag parsing itself is a collaborator.
- Converting errors to `params.Error` with `common.ServerError` is
  the identity here.
- The facade's `NewModelGenerationFacade` wiring from a `facade.Context` is
  not modelled.
- The credential facade is a parameter: the reply of each `ModelCredential`
  call and the result of `WatchCredential` are given to the operation that
  makes the call. Errors from `catacomb.Invoke` and from adding the watcher
  to the catacomb are not modelled.
- The manifold's `Output` and the engine's restart policy are outside the
  model; only the `ErrBounce` translation is kept.
- ResourceDeploy.Upload: the server's one-id-per-resource reply
  (`cmd/juju/resource/deploy.go:111`) is assumed through the
  `AddPendingOneToOne` requires. The index panic on a shorter reply is not
  modelled, and neither is a longer reply, whose extra ids the code ignores.
- ResourceDeploy.UploadAll: the same one-id-per-resource reply is assumed, for
  the same reason; so are UploadKeys, UploadAllKeys, UploadCalls,
  UploadAllCalls and StoreIdsByPosition.
- CacheMachine.WatchContainers: registers the watcher once, the corrected
  behaviour under "## Findings". `core/cache/machine.go:131` registers it a
  second time; that code as written is modelled by
  RegisterContainersWatcherAsWritten and ContainersWatcherLeaksAsWritten.
- CacheModel.UnitReturnsCopy: values in this model cannot alias, so the
  copy-out the test checks (mutating the returned slice leaves the cache
  alone) cannot be expressed. The lemma states only that the lookup returns
  the stored ports.
- CacheModel.BranchReturnsCopy: for the same reason, the copy-out of the
  assigned-units map cannot be expressed. The lemma states only that the
  lookup returns the stored assigned units.

## Findings

| source | as written | input that shows it | evidently intended | confidence | as-written member | corrected member |
|---|---|---|---|---|---|---|
| core/cache/machine.go:121-131 | `WatchContainers` calls `registerWorker(w)` twice, but the watcher's death runs only the first deregistration | a machine with no workers, then WatchContainers, then the watcher dies: one worker is still registered | register once, so that the watcher's death releases its registration | not executed | CacheMachine.ContainersWatcherLeaksAsWritten | CacheMachine.ContainersWatcherReleased |

`CacheMachine.WatchContainers` uses the corrected registration.

## Discrepancies between the code and its tests

- `CacheModel.Report` includes `"branch-count"`, as `core/cache/model_test.go:25-36`
  expects. The controller-level report expectation in
  `core/cache/controller_test.go:51-59` has no such key. The model follows
  the model-level test.
- `filterErrors` (`worker/credentialvalidator/manifold.go:70-76`) turns only
  `ErrValidityChanged` into `ErrBounce`. The test at
  `worker/credentialvalidator/manifold_test.go:51-55` also expects
  `ErrModelMissingCredentialRequired` to bounce. The model follows the code;
  `CredentialManifold.MissingCredentialNotBounced` shows the mismatch.
- The comment in `core/cache/controller_test.go:232-234` describes sweep as
  first-in-last-out by creation. The order the test checks (lines 235-239),
  and the one modelled, is by kind: units, machines, applications, charms,
  then models. The two agree for that test's data.
