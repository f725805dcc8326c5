/** The data the in-memory model cache (core/cache) is built from: the change
    and removal events the controller consumes, hub topics and messages, the
    Resident bookkeeping every cached entity embeds, and the abstract
    collaborators (config hashing, the container-id pattern) the cache calls
    into. */
module CacheTypes {
  import opened Errors

  /** A config snapshot. The source stores `map[string]interface{}`; the
      values are opaque here. */
  type Config = map<string, string>

  datatype ModelChange = ModelChange(
    modelUUID: string, name: string, life: string, owner: string, config: Config)

  datatype ApplicationChange = ApplicationChange(
    modelUUID: string, name: string, charmURL: string, config: Config)

  datatype CharmChange = CharmChange(modelUUID: string, charmURL: string)

  datatype MachineChange = MachineChange(
    modelUUID: string, id: string, instanceId: string, containerType: string,
    charmProfiles: seq<string>, config: Config)

  datatype Port = Port(protocol: string, number: int)

  datatype UnitChange = UnitChange(
    modelUUID: string, name: string, application: string, machineId: string,
    principal: string, subordinate: bool, ports: seq<Port>)

  datatype BranchChange = BranchChange(
    modelUUID: string, name: string, assignedUnits: map<string, seq<string>>)

  /** The heterogeneous event stream, as a tagged union: one change (full
      snapshot) and one removal (natural key only) per entity kind. */
  datatype Change =
    | ChangeModel(model: ModelChange)
    | RemoveModel(modelUUID: string)
    | ChangeApplication(application: ApplicationChange)
    | RemoveApplication(modelUUID: string, name: string)
    | ChangeCharm(charm: CharmChange)
    | RemoveCharm(modelUUID: string, charmURL: string)
    | ChangeMachine(machine: MachineChange)
    | RemoveMachine(modelUUID: string, id: string)
    | ChangeUnit(unit: UnitChange)
    | RemoveUnit(modelUUID: string, name: string)
    | ChangeBranch(branch: BranchChange)
    | RemoveBranch(modelUUID: string, name: string)
  {
    predicate IsRemoval() {
      RemoveModel? || RemoveApplication? || RemoveCharm? || RemoveMachine? || RemoveUnit? || RemoveBranch?
    }

    /** The model the event is routed to. */
    function ModelOf(): string {
      match this
      case ChangeModel(m) => m.modelUUID
      case ChangeApplication(a) => a.modelUUID
      case ChangeCharm(ch) => ch.modelUUID
      case ChangeMachine(m) => m.modelUUID
      case ChangeUnit(u) => u.modelUUID
      case ChangeBranch(b) => b.modelUUID
      case _ => modelUUID
    }
  }

  /** Hub topics: a closed set of model-wide topics plus the instance-scoped
      ones built as "<id>:<suffix>". */
  datatype Topic = InstanceTopic(name: string) | ModelAddRemoveMachine | ModelConfigChange

  datatype Message = Message(topic: Topic, payload: seq<string>)

  /** Resident: the removal event to synthesise on sweep (set on the first
      receipt of details), the staleness flag used by mark and sweep, and
      the workers registered with the entity. Worker ids are handed out
      from 1 upwards. */
  datatype Resident = Resident(
    removalMessage: Option<Change>, stale: bool, workers: set<nat>, lastWorker: nat)

  const NewResident := Resident(None, false, {}, 0)

  /** Every registered worker id was handed out by this resident. */
  predicate WorkersWf(r: Resident) {
    forall w :: w in r.workers ==> 1 <= w <= r.lastWorker
  }

  datatype Registration = Registration(resident: Resident, id: nat)

  /** registerWorker: a fresh id, added to the worker set. */
  function RegisterWorker(r: Resident): (g: Registration)
    requires WorkersWf(r)
    ensures g.id >= 1 && g.id !in r.workers
    ensures g.resident.workers == r.workers + {g.id}
    ensures WorkersWf(g.resident)
    ensures g.resident.removalMessage == r.removalMessage && g.resident.stale == r.stale
  {
    var id := r.lastWorker + 1;
    Registration(r.(workers := r.workers + {id}, lastWorker := id), id)
  }

  /** The function registerWorker returns: forget one registration. */
  function DeregisterWorker(r: Resident, id: nat): (r': Resident)
    requires WorkersWf(r)
    ensures r'.workers == r.workers - {id}
    ensures WorkersWf(r')
    ensures r'.removalMessage == r.removalMessage && r'.stale == r.stale && r'.lastWorker == r.lastWorker
  {
    r.(workers := r.workers - {id})
  }

  /** The part of setDetails common to every entity: remember the removal
      message on the first receipt only, and clear the staleness flag. */
  function Refresh(r: Resident, removal: Change): (r': Resident)
    ensures !r'.stale
    ensures r.removalMessage.Some? ==> r'.removalMessage == r.removalMessage
    ensures r.removalMessage.None? ==> r'.removalMessage == Some(removal)
    ensures r'.workers == r.workers && r'.lastWorker == r.lastWorker
  {
    Resident(if r.removalMessage.None? then Some(removal) else r.removalMessage,
             false, r.workers, r.lastWorker)
  }

  /** A cached entity: its resident, the last applied snapshot and the hash
      of the snapshot's config. */
  datatype Entity<D> = Entity(resident: Resident, details: D, configHash: string)

  /** Collaborators the cache calls but whose code is not part of this
      model: the config hash (YAML serialisation plus digest, which can
      fail), names.IsContainerMachine, and whether a string begins with a
      match of names.ContainerSnippet. */
  datatype Env = Env(
    hash: Config -> Option<string>,
    isContainerMachine: string -> bool,
    beginsWithContainerSnippet: string -> bool)

  /** The stored hash: the digest, or "" when hashing fails. */
  function HashOrEmpty(env: Env, c: Config): string {
    match env.hash(c)
    case Some(h) => h
    case None => ""
  }
}
