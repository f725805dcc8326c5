/** The cached model (core/cache Model). Its implementation is not part of
    this model; its behaviour here is what core/cache/model_test.go and
    core/cache/controller_test.go assert of it: keyed entity maps with
    NotFound lookups, a summary report, config reads counted by a gauge, a
    config-hash cache keyed by an order-independent field set, config
    watchers that fire only when the hash of their fields changes, and a
    top-level machine watcher. */
module CacheModel {
  import opened Errors
  import opened CacheTypes
  import CacheMachine

  type CachedApplication = Entity<ApplicationChange>
  type CachedCharm = Entity<CharmChange>
  type CachedMachine = CacheMachine.Machine
  type CachedUnit = CacheMachine.Unit
  type CachedBranch = Entity<BranchChange>

  /** A notify watcher over a set of config fields ({} watches them all):
      the hash last seen, and whether a signal is waiting in its size-one
      channel. */
  datatype ConfigWatcher = ConfigWatcher(keys: set<string>, hash: string, pending: bool)

  /** The strings watcher of WatchMachines: ids waiting to be delivered. */
  datatype MachinesWatcher = MachinesWatcher(pending: seq<string>)

  /** The counters the model updates: config reads and hash-cache hits and misses. */
  datatype Gauges = Gauges(configReads: nat, hashHits: nat, hashMisses: nat)

  datatype Model = Model(
    resident: Resident,
    details: ModelChange,
    configHash: string,
    applications: map<string, CachedApplication>,
    charms: map<string, CachedCharm>,
    machines: map<string, CachedMachine>,
    units: map<string, CachedUnit>,
    branches: map<string, CachedBranch>,
    hashCache: map<set<string>, string>,
    gauges: Gauges,
    configWatchers: map<nat, ConfigWatcher>,
    machineWatchers: map<nat, MachinesWatcher>)

  const EmptyModelChange := ModelChange("", "", "", "", map[])

  /** A model as the controller creates it on first reference, before any
      ModelChange for it has been applied. */
  const EmptyModel: Model := Model(NewResident, EmptyModelChange, "", map[], map[], map[], map[], map[],
                                   map[], Gauges(0, 0, 0), map[], map[])

  /** The config fields a hash covers: all of them for {}, otherwise the
      named ones that are present. */
  function Project(config: Config, keys: set<string>): (p: Config)
    ensures keys == {} ==> p == config
    ensures keys != {} ==> p.Keys == config.Keys * keys
    ensures forall k :: k in p ==> k in config && p[k] == config[k]
  {
    if keys == {} then config else map k | k in config && k in keys :: config[k]
  }

  function ConfigHashFor(env: Env, config: Config, keys: set<string>): string {
    HashOrEmpty(env, Project(config, keys))
  }

  /** Every cached hash is the hash of the current config's fields. */
  predicate CacheCoherent(env: Env, m: Model) {
    forall keys :: keys in m.hashCache ==> m.hashCache[keys] == ConfigHashFor(env, m.details.config, keys)
  }

  /** Well-formed model: watcher registrations are resident workers, and
      the hash cache agrees with the config. */
  predicate Wf(env: Env, m: Model) {
    && WorkersWf(m.resident)
    && (forall id :: id in m.configWatchers ==> id in m.resident.workers)
    && (forall id :: id in m.machineWatchers ==> id in m.resident.workers)
    && CacheCoherent(env, m)
  }

  // ---------------------------------------------------------------------
  // Lookups and read accessors.

  /** Entity lookup by natural key: the cached entity, or NotFound. */
  function Lookup<D>(es: map<string, Entity<D>>, key: string, what: string): (r: Result<Entity<D>>)
    ensures r.Ok? <==> key in es
    ensures r.Ok? ==> r.value == es[key]
    ensures r.Err? ==> r.error == NotFoundf(what + " " + Quote(key))
  {
    if key in es then Ok(es[key]) else Err(NotFoundf(what + " " + Quote(key)))
  }

  function Application(m: Model, name: string): Result<CachedApplication> {
    Lookup(m.applications, name, "application")
  }

  function Charm(m: Model, url: string): Result<CachedCharm> {
    Lookup(m.charms, url, "charm")
  }

  function Machine(m: Model, id: string): Result<CachedMachine> {
    Lookup(m.machines, id, "machine")
  }

  function Unit(m: Model, name: string): Result<CachedUnit> {
    Lookup(m.units, name, "unit")
  }

  function Branch(m: Model, name: string): Result<CachedBranch> {
    Lookup(m.branches, name, "branch")
  }

  /** Unit.Ports and Branch.AssignedUnits hand back values, so what a caller
      does with the result cannot reach the cache. */
  function Ports(u: CachedUnit): seq<Port> {
    u.details.ports
  }

  function AssignedUnits(b: CachedBranch): map<string, seq<string>> {
    b.details.assignedUnits
  }

  datatype ReportValue = Text(text: string) | Count(count: nat)

  const ReportKeys := {"name", "life", "application-count", "charm-count", "machine-count",
                       "unit-count", "branch-count"}

  /** Report: "owner/name", life, and one count per entity map. */
  function Report(m: Model): (r: map<string, ReportValue>)
    ensures r.Keys == ReportKeys
    ensures r["name"] == Text(m.details.owner + "/" + m.details.name)
    ensures r["life"] == Text(m.details.life)
    ensures r["application-count"] == Count(|m.applications|)
    ensures r["charm-count"] == Count(|m.charms|)
    ensures r["machine-count"] == Count(|m.machines|)
    ensures r["unit-count"] == Count(|m.units|)
    ensures r["branch-count"] == Count(|m.branches|)
  {
    map["name" := Text(m.details.owner + "/" + m.details.name),
        "life" := Text(m.details.life),
        "application-count" := Count(|m.applications|),
        "charm-count" := Count(|m.charms|),
        "machine-count" := Count(|m.machines|),
        "unit-count" := Count(|m.units|),
        "branch-count" := Count(|m.branches|)]
  }

  datatype ConfigRead = ConfigRead(config: Config, model: Model)

  /** Config: the snapshot's config; each call counts one config read. */
  function ReadConfig(m: Model): (r: ConfigRead)
    ensures r.config == m.details.config
    ensures r.model.gauges.configReads == m.gauges.configReads + 1
    ensures r.model == m.(gauges := r.model.gauges)
    ensures r.model.gauges.hashHits == m.gauges.hashHits && r.model.gauges.hashMisses == m.gauges.hashMisses
  {
    ConfigRead(m.details.config, m.(gauges := m.gauges.(configReads := m.gauges.configReads + 1)))
  }

  // ---------------------------------------------------------------------
  // The config-hash cache.

  datatype Hashed = Hashed(hash: string, model: Model)

  /** The hash of the config restricted to `keys`, from the cache when
      present (a hit) or computed and stored (a miss). */
  function ConfigHash(env: Env, m: Model, keys: set<string>): (h: Hashed)
    requires CacheCoherent(env, m)
    ensures h.hash == ConfigHashFor(env, m.details.config, keys)
    ensures CacheCoherent(env, h.model)
    ensures keys in h.model.hashCache
    ensures keys in m.hashCache ==>
              h.model.gauges == m.gauges.(hashHits := m.gauges.hashHits + 1) && h.model.hashCache == m.hashCache
    ensures keys !in m.hashCache ==>
              h.model.gauges == m.gauges.(hashMisses := m.gauges.hashMisses + 1) &&
              h.model.hashCache == m.hashCache[keys := h.hash]
    ensures h.model == m.(gauges := h.model.gauges, hashCache := h.model.hashCache)
  {
    if keys in m.hashCache then
      Hashed(m.hashCache[keys], m.(gauges := m.gauges.(hashHits := m.gauges.hashHits + 1)))
    else
      var hash := ConfigHashFor(env, m.details.config, keys);
      Hashed(hash, m.(hashCache := m.hashCache[keys := hash],
                      gauges := m.gauges.(hashMisses := m.gauges.hashMisses + 1)))
  }

  /** One subscriber of the config-change topic recomputes its hash through
      the cache and signals only if the hash changed. */
  function NotifyConfigWatcher(env: Env, m: Model, id: nat): (m': Model)
    requires CacheCoherent(env, m)
    requires id in m.configWatchers
    ensures CacheCoherent(env, m')
    ensures m'.configWatchers.Keys == m.configWatchers.Keys
    ensures var w := m.configWatchers[id];
            var h := ConfigHashFor(env, m.details.config, w.keys);
            m'.configWatchers[id] == (if h != w.hash then ConfigWatcher(w.keys, h, true) else w)
    ensures forall j :: j in m.configWatchers && j != id ==> m'.configWatchers[j] == m.configWatchers[j]
    ensures m' == m.(gauges := m'.gauges, hashCache := m'.hashCache, configWatchers := m'.configWatchers)
    ensures m'.gauges.configReads == m.gauges.configReads
    ensures m'.gauges.hashHits + m'.gauges.hashMisses == m.gauges.hashHits + m.gauges.hashMisses + 1
  {
    var w := m.configWatchers[id];
    var h := ConfigHash(env, m, w.keys);
    var seen := if h.hash != w.hash then ConfigWatcher(w.keys, h.hash, true) else w;
    h.model.(configWatchers := m.configWatchers[id := seen])
  }

  /** The config-change publish reaches the watchers with ids 1..n in
      subscription (id) order. */
  function NotifyConfigWatchers(env: Env, m: Model, n: nat): (m': Model)
    requires CacheCoherent(env, m)
    ensures CacheCoherent(env, m')
    ensures m'.configWatchers.Keys == m.configWatchers.Keys
    ensures m' == m.(gauges := m'.gauges, hashCache := m'.hashCache, configWatchers := m'.configWatchers)
    ensures m'.gauges.configReads == m.gauges.configReads
    ensures m'.gauges.hashHits >= m.gauges.hashHits && m'.gauges.hashMisses >= m.gauges.hashMisses
    ensures m.configWatchers == map[] ==> m' == m
    decreases n
  {
    if n == 0 then m
    else
      var prev := NotifyConfigWatchers(env, m, n - 1);
      if n in prev.configWatchers then NotifyConfigWatcher(env, prev, n) else prev
  }

  /** After the publish, each watcher with id <= n holds the hash of its
      fields and has a signal waiting exactly when it had one or its hash
      changed; the others are untouched. */
  lemma {:induction false} NotifyConfigWatchersEffect(env: Env, m: Model, n: nat, id: nat)
    requires CacheCoherent(env, m)
    requires id in m.configWatchers
    ensures var w := m.configWatchers[id];
            var h := ConfigHashFor(env, m.details.config, w.keys);
            var w' := NotifyConfigWatchers(env, m, n).configWatchers[id];
            if 1 <= id <= n then
              w' == (if h != w.hash then ConfigWatcher(w.keys, h, true) else w)
            else
              w' == w
    decreases n
  {
    if n > 0 {
      NotifyConfigWatchersEffect(env, m, n - 1, id);
      var prev := NotifyConfigWatchers(env, m, n - 1);
      if n in prev.configWatchers {
        var w := m.configWatchers[id];
        if id == n {
          assert prev.configWatchers[id] == w;
        }
      }
    }
  }

  datatype ModelApplied = ModelApplied(model: Model, published: seq<Message>)

  /** Model.SetDetails: first receipt fixes the removal message, the model
      is no longer stale, the snapshot is replaced, the hash cache is
      rebuilt from one full-config hash (a miss), and when that hash differs
      from the stored one the config-change topic is published and every
      config watcher re-checks its fields. */
  function SetDetails(env: Env, m: Model, ch: ModelChange): (a: ModelApplied)
    ensures a.model.details == ch && !a.model.resident.stale
    ensures m.resident.removalMessage.Some? ==> a.model.resident.removalMessage == m.resident.removalMessage
    ensures m.resident.removalMessage.None? ==> a.model.resident.removalMessage == Some(RemoveModel(ch.modelUUID))
    ensures a.model.configHash == ConfigHashFor(env, ch.config, {})
    ensures CacheCoherent(env, a.model)
    ensures a.model.gauges.configReads == m.gauges.configReads
    ensures a.model.gauges.hashMisses >= m.gauges.hashMisses + 1
    ensures (m.configWatchers == map[] || a.model.configHash == m.configHash) ==>
              a.model.gauges == m.gauges.(hashMisses := m.gauges.hashMisses + 1)
    ensures a.published == if a.model.configHash != m.configHash then [Message(ModelConfigChange, [])] else []
    ensures a.model.configWatchers.Keys == m.configWatchers.Keys
    ensures a.model.resident.workers == m.resident.workers && a.model.resident.lastWorker == m.resident.lastWorker
    ensures a.model.applications == m.applications && a.model.charms == m.charms && a.model.machines == m.machines
    ensures a.model.units == m.units && a.model.branches == m.branches && a.model.machineWatchers == m.machineWatchers
  {
    var reset := m.(resident := Refresh(m.resident, RemoveModel(ch.modelUUID)), details := ch, hashCache := map[]);
    var full := ConfigHash(env, reset, {});
    if full.hash != m.configHash then
      var changed := full.model.(configHash := full.hash);
      ModelApplied(NotifyConfigWatchers(env, changed, changed.resident.lastWorker), [Message(ModelConfigChange, [])])
    else
      ModelApplied(full.model, [])
  }

  /** The dedup decision: after SetDetails a config watcher has a signal
      waiting iff it already had one, or the full-config hash changed and
      the hash of the watcher's own fields changed too. */
  lemma ConfigWatcherNotifiedIff(env: Env, m: Model, ch: ModelChange, id: nat)
    requires Wf(env, m)
    requires id in m.configWatchers
    ensures var w := m.configWatchers[id];
            var w' := SetDetails(env, m, ch).model.configWatchers[id];
            && w'.keys == w.keys
            && (w'.pending <==>
                  w.pending ||
                  (ConfigHashFor(env, ch.config, {}) != m.configHash &&
                   ConfigHashFor(env, ch.config, w.keys) != w.hash))
  {
    var reset := m.(resident := Refresh(m.resident, RemoveModel(ch.modelUUID)), details := ch, hashCache := map[]);
    var full := ConfigHash(env, reset, {});
    if full.hash != m.configHash {
      var changed := full.model.(configHash := full.hash);
      assert id <= changed.resident.lastWorker;
      NotifyConfigWatchersEffect(env, changed, changed.resident.lastWorker, id);
    }
  }

  /** A watcher over some fields is not signalled by a change that leaves
      those fields alone, whatever else changes. */
  lemma ConfigWatcherIgnoresOtherFields(env: Env, m: Model, ch: ModelChange, id: nat)
    requires Wf(env, m)
    requires id in m.configWatchers && !m.configWatchers[id].pending
    requires m.configWatchers[id].keys != {}
    requires m.configWatchers[id].hash == ConfigHashFor(env, m.details.config, m.configWatchers[id].keys)
    requires forall k :: k in m.configWatchers[id].keys ==>
               (k in ch.config <==> k in m.details.config) &&
               (k in ch.config ==> ch.config[k] == m.details.config[k])
    ensures !SetDetails(env, m, ch).model.configWatchers[id].pending
  {
    var keys := m.configWatchers[id].keys;
    assert Project(ch.config, keys) == Project(m.details.config, keys);
    ConfigWatcherNotifiedIff(env, m, ch, id);
  }

  /** A watcher holding the hash of its fields is signalled when the full
      hash and the hash of its own fields both change. */
  lemma ConfigWatcherSeesFieldChange(env: Env, m: Model, ch: ModelChange, id: nat)
    requires Wf(env, m)
    requires id in m.configWatchers
    requires m.configWatchers[id].hash == ConfigHashFor(env, m.details.config, m.configWatchers[id].keys)
    requires ConfigHashFor(env, ch.config, {}) != m.configHash
    requires ConfigHashFor(env, ch.config, m.configWatchers[id].keys) !=
             ConfigHashFor(env, m.details.config, m.configWatchers[id].keys)
    ensures SetDetails(env, m, ch).model.configWatchers[id].pending
    ensures SetDetails(env, m, ch).model.configWatchers[id].hash == ConfigHashFor(env, ch.config, m.configWatchers[id].keys)
  {
    var reset := m.(resident := Refresh(m.resident, RemoveModel(ch.modelUUID)), details := ch, hashCache := map[]);
    var full := ConfigHash(env, reset, {});
    var changed := full.model.(configHash := full.hash);
    NotifyConfigWatchersEffect(env, changed, changed.resident.lastWorker, id);
  }

  /** NewModel: a model built from its first ModelChange. */
  function NewModel(env: Env, ch: ModelChange): Model {
    SetDetails(env, EmptyModel, ch).model
  }

  /** A fresh model reports "owner/name", its life and zero counts, and has
      paid exactly one hash miss for its full config. */
  lemma NewModelReport(env: Env, ch: ModelChange)
    ensures Report(NewModel(env, ch)) ==
              map["name" := Text(ch.owner + "/" + ch.name), "life" := Text(ch.life),
                  "application-count" := Count(0), "charm-count" := Count(0),
                  "machine-count" := Count(0), "unit-count" := Count(0), "branch-count" := Count(0)]
    ensures NewModel(env, ch).gauges == Gauges(0, 0, 1)
    ensures ReadConfig(NewModel(env, ch)).config == ch.config
  {
  }

  // ---------------------------------------------------------------------
  // Watchers on the model's resident.

  datatype Watching = Watching(model: Model, id: nat)

  /** The field names a watcher is created with, as an unordered set. */
  function Fields(keys: seq<string>): set<string> {
    set k | k in keys
  }

  /** WatchConfig(keys...): a config watcher over the given fields (in any
      order), seeded from the hash cache, with its initial signal waiting,
      registered as a worker of the model. */
  function WatchConfig(env: Env, m: Model, keys: seq<string>): (w: Watching)
    requires Wf(env, m)
    ensures Wf(env, w.model)
    ensures w.id !in m.resident.workers && w.model.resident.workers == m.resident.workers + {w.id}
    ensures w.id == m.resident.lastWorker + 1
    ensures w.model.configWatchers ==
              m.configWatchers[w.id := ConfigWatcher(Fields(keys), ConfigHashFor(env, m.details.config, Fields(keys)), true)]
    ensures Fields(keys) in m.hashCache ==>
              w.model.gauges == m.gauges.(hashHits := m.gauges.hashHits + 1)
    ensures Fields(keys) !in m.hashCache ==>
              w.model.gauges == m.gauges.(hashMisses := m.gauges.hashMisses + 1)
    ensures w.model.details == m.details && w.model.configHash == m.configHash
    ensures w.model.machineWatchers == m.machineWatchers && w.model.machines == m.machines
    ensures w.model.resident.removalMessage == m.resident.removalMessage && w.model.resident.stale == m.resident.stale
    ensures w.model == m.(resident := w.model.resident, configWatchers := w.model.configWatchers,
                          hashCache := w.model.hashCache, gauges := w.model.gauges)
  {
    var fields := Fields(keys);
    var h := ConfigHash(env, m, fields);
    var g := RegisterWorker(h.model.resident);
    Watching(h.model.(resident := g.resident,
                      configWatchers := h.model.configWatchers[g.id := ConfigWatcher(fields, h.hash, true)]),
             g.id)
  }

  /** The field set is the cache key, so two watchers naming the same
      fields in a different order share one cache entry: the second is a
      hit. */
  lemma ConfigHashKeyOrderIndependent(env: Env, m: Model, keys1: seq<string>, keys2: seq<string>)
    requires Wf(env, m)
    requires forall k :: k in keys1 <==> k in keys2
    ensures var first := WatchConfig(env, m, keys1).model;
            WatchConfig(env, first, keys2).model.gauges == first.gauges.(hashHits := first.gauges.hashHits + 1)
  {
    assert Fields(keys1) == Fields(keys2);
  }

  datatype Signal = Signal(fired: bool, model: Model)

  /** Receiving from a config watcher: takes the waiting signal, if any. */
  function TakeConfigSignal(m: Model, id: nat): (s: Signal)
    requires id in m.configWatchers
    ensures s.fired == m.configWatchers[id].pending
    ensures id in s.model.configWatchers && !s.model.configWatchers[id].pending
    ensures s.model == m.(configWatchers := s.model.configWatchers)
    ensures s.model.configWatchers.Keys == m.configWatchers.Keys
  {
    var w := m.configWatchers[id];
    Signal(w.pending, m.(configWatchers := m.configWatchers[id := w.(pending := false)]))
  }

  /** Stopping a config watcher ends its subscription and deregisters it. */
  function StopConfigWatcher(m: Model, id: nat): (m': Model)
    requires WorkersWf(m.resident)
    ensures id !in m'.configWatchers && id !in m'.resident.workers
    ensures m'.resident.workers == m.resident.workers - {id}
    ensures m'.configWatchers == m.configWatchers - {id}
    ensures m'.resident.removalMessage == m.resident.removalMessage && m'.resident.stale == m.resident.stale
    ensures m' == m.(resident := m'.resident, configWatchers := m'.configWatchers)
  {
    m.(resident := DeregisterWorker(m.resident, id), configWatchers := m.configWatchers - {id})
  }

  /** The predicate of WatchMachines: the ids that are not containers. */
  function TopLevel(env: Env, ids: seq<string>): (r: seq<string>)
    ensures forall x :: x in r <==> x in ids && !env.isContainerMachine(x)
    ensures |r| <= |ids|
    decreases |ids|
  {
    if |ids| == 0 then []
    else (if env.isContainerMachine(ids[0]) then [] else [ids[0]]) + TopLevel(env, ids[1..])
  }

  /** WatchMachines: a strings watcher whose initial event lists the model's
      non-container machine ids, registered as a worker of the model.
      `order` is the order the machine map is walked in. */
  function WatchMachines(env: Env, m: Model, order: seq<string>): (w: Watching)
    requires Wf(env, m)
    requires Enumerates(order, m.machines.Keys)
    ensures Wf(env, w.model)
    ensures w.id == m.resident.lastWorker + 1 && w.id !in m.resident.workers
    ensures w.model.resident.workers == m.resident.workers + {w.id}
    ensures w.id in w.model.machineWatchers
    ensures forall x :: x in w.model.machineWatchers[w.id].pending <==>
              x in m.machines && !env.isContainerMachine(x)
    ensures w.model.machineWatchers == m.machineWatchers[w.id := w.model.machineWatchers[w.id]]
    ensures w.model == m.(resident := w.model.resident, machineWatchers := w.model.machineWatchers)
  {
    var g := RegisterWorker(m.resident);
    Watching(m.(resident := g.resident,
                machineWatchers := m.machineWatchers[g.id := MachinesWatcher(TopLevel(env, order))]),
             g.id)
  }

  datatype Delivery = Delivery(ids: seq<string>, model: Model)

  /** Receiving from a machines watcher: everything queued since the last
      receive, combined. */
  function TakeMachineChanges(m: Model, id: nat): (d: Delivery)
    requires id in m.machineWatchers
    ensures d.ids == m.machineWatchers[id].pending
    ensures d.model.machineWatchers == m.machineWatchers[id := MachinesWatcher([])]
    ensures d.model == m.(machineWatchers := d.model.machineWatchers)
  {
    Delivery(m.machineWatchers[id].pending, m.(machineWatchers := m.machineWatchers[id := MachinesWatcher([])]))
  }

  function StopMachinesWatcher(m: Model, id: nat): (m': Model)
    requires WorkersWf(m.resident)
    ensures id !in m'.machineWatchers && id !in m'.resident.workers
    ensures m'.resident.workers == m.resident.workers - {id}
    ensures m'.machineWatchers == m.machineWatchers - {id}
    ensures m'.resident.removalMessage == m.resident.removalMessage && m'.resident.stale == m.resident.stale
    ensures m' == m.(resident := m'.resident, machineWatchers := m'.machineWatchers)
  {
    m.(resident := DeregisterWorker(m.resident, id), machineWatchers := m.machineWatchers - {id})
  }

  /** The add/remove-machine publish reaching every machines watcher. */
  function FeedMachineWatchers(env: Env, m: Model, ids: seq<string>): (m': Model)
    ensures m'.machineWatchers.Keys == m.machineWatchers.Keys
    ensures forall id :: id in m.machineWatchers ==>
              m'.machineWatchers[id].pending == m.machineWatchers[id].pending + TopLevel(env, ids)
    ensures m' == m.(machineWatchers := m'.machineWatchers)
  {
    m.(machineWatchers := map id | id in m.machineWatchers ::
                            MachinesWatcher(m.machineWatchers[id].pending + TopLevel(env, ids)))
  }

  // ---------------------------------------------------------------------
  // Applying entity changes and removals.

  /** The entity part of setDetails for a kind without visible code:
      create on first receipt, then refresh the resident and replace the
      snapshot. */
  function Upsert<D>(es: map<string, Entity<D>>, key: string, d: D, zero: D, removal: Change, configHash: string)
    : (es': map<string, Entity<D>>)
    ensures es'.Keys == es.Keys + {key}
    ensures es'[key].details == d && !es'[key].resident.stale && es'[key].configHash == configHash
    ensures key in es && es[key].resident.removalMessage.Some? ==>
              es'[key].resident.removalMessage == es[key].resident.removalMessage
    ensures (key !in es || es[key].resident.removalMessage.None?) ==>
              es'[key].resident.removalMessage == Some(removal)
    ensures forall k :: k in es && k != key ==> es'[k] == es[k]
  {
    var e := if key in es then es[key] else Entity(NewResident, zero, "");
    es[key := Entity(Refresh(e.resident, removal), d, configHash)]
  }

  function UpdateApplication(env: Env, m: Model, ch: ApplicationChange): Model {
    m.(applications := Upsert(m.applications, ch.name, ch, ApplicationChange("", "", "", map[]),
                              RemoveApplication(ch.modelUUID, ch.name), HashOrEmpty(env, ch.config)))
  }

  function UpdateCharm(m: Model, ch: CharmChange): Model {
    m.(charms := Upsert(m.charms, ch.charmURL, ch, CharmChange("", ""),
                        RemoveCharm(ch.modelUUID, ch.charmURL), ""))
  }

  function UpdateUnit(m: Model, ch: UnitChange): Model {
    m.(units := Upsert(m.units, ch.name, ch, UnitChange("", "", "", "", "", false, []),
                       RemoveUnit(ch.modelUUID, ch.name), ""))
  }

  function UpdateBranch(m: Model, ch: BranchChange): Model {
    m.(branches := Upsert(m.branches, ch.name, ch, BranchChange("", "", map[]),
                          RemoveBranch(ch.modelUUID, ch.name), ""))
  }

  /** The machine map after setDetails on the machine with the change's
      id, which is created from the zero snapshot on first sight. */
  function PutMachine(env: Env, machines: map<string, CachedMachine>, ch: MachineChange)
    : (ms: map<string, CachedMachine>)
    ensures ms.Keys == machines.Keys + {ch.id}
    ensures ms[ch.id] ==
              CacheMachine.SetDetails(env, if ch.id in machines then machines[ch.id] else CacheMachine.NewMachine, ch).machine
    ensures forall k :: k in machines && k != ch.id ==> ms[k] == machines[k]
  {
    var machine := if ch.id in machines then machines[ch.id] else CacheMachine.NewMachine;
    machines[ch.id := CacheMachine.SetDetails(env, machine, ch).machine]
  }

  /** UpdateMachine: a machine seen for the first time is added and the
      add/remove-machine topic published with its id; then setDetails. */
  function UpdateMachine(env: Env, m: Model, ch: MachineChange): (a: ModelApplied)
    ensures a.model.machines == PutMachine(env, m.machines, ch)
    ensures a.model.machineWatchers ==
              if ch.id in m.machines then m.machineWatchers else FeedMachineWatchers(env, m, [ch.id]).machineWatchers
    ensures a.model == m.(machines := a.model.machines, machineWatchers := a.model.machineWatchers)
    ensures ch.id in m.machines ==> a.published == CacheMachine.SetDetails(env, m.machines[ch.id], ch).published
    ensures ch.id !in m.machines ==> |a.published| >= 1 && a.published[0] == Message(ModelAddRemoveMachine, [ch.id])
  {
    var machines := PutMachine(env, m.machines, ch);
    var known := ch.id in m.machines;
    var applied := CacheMachine.SetDetails(env, if known then m.machines[ch.id] else CacheMachine.NewMachine, ch);
    if known then
      ModelApplied(m.(machines := machines), applied.published)
    else
      var fed := FeedMachineWatchers(env, m, [ch.id]);
      ModelApplied(m.(machines := machines, machineWatchers := fed.machineWatchers),
                   [Message(ModelAddRemoveMachine, [ch.id])] + applied.published)
  }

  /** removeMachine: an absent id is a no-op; otherwise the machine goes and
      the add/remove-machine topic is published with its id. */
  function RemoveMachineFrom(env: Env, m: Model, id: string): (a: ModelApplied)
    ensures a.model.machines == m.machines - {id}
    ensures id !in m.machines ==> a == ModelApplied(m, [])
    ensures id in m.machines ==>
              a == ModelApplied(FeedMachineWatchers(env, m, [id]).(machines := m.machines - {id}),
                                [Message(ModelAddRemoveMachine, [id])])
  {
    if id in m.machines then
      ModelApplied(FeedMachineWatchers(env, m.(machines := m.machines - {id}), [id]),
                   [Message(ModelAddRemoveMachine, [id])])
    else
      ModelApplied(m, [])
  }

  /** Watching machines: adding a top-level machine is reported with its
      id, adding a container or re-applying a known machine is not, and
      removing a top-level machine is reported. */
  lemma MachinesWatcherEvents(env: Env, m: Model, ch: MachineChange, id: nat)
    requires id in m.machineWatchers
    ensures var before := m.machineWatchers[id].pending;
            var after := UpdateMachine(env, m, ch).model.machineWatchers[id].pending;
            after == before + (if ch.id !in m.machines && !env.isContainerMachine(ch.id) then [ch.id] else [])
    ensures var before := m.machineWatchers[id].pending;
            var after := RemoveMachineFrom(env, m, ch.id).model.machineWatchers[id].pending;
            after == before + (if ch.id in m.machines && !env.isContainerMachine(ch.id) then [ch.id] else [])
  {
  }

  /** mark: the model and every entity it holds become stale. */
  function MarkAll<D>(es: map<string, Entity<D>>): (es': map<string, Entity<D>>)
    ensures es'.Keys == es.Keys
    ensures forall k :: k in es ==> es'[k] == es[k].(resident := es[k].resident.(stale := true))
  {
    map k | k in es :: es[k].(resident := es[k].resident.(stale := true))
  }

  function Mark(m: Model): (m': Model)
    ensures m'.resident == m.resident.(stale := true)
    ensures m'.applications == MarkAll(m.applications) && m'.charms == MarkAll(m.charms)
    ensures m'.machines == MarkAll(m.machines) && m'.units == MarkAll(m.units) && m'.branches == MarkAll(m.branches)
  {
    m.(resident := m.resident.(stale := true),
       applications := MarkAll(m.applications), charms := MarkAll(m.charms), machines := MarkAll(m.machines),
       units := MarkAll(m.units), branches := MarkAll(m.branches))
  }

  // ---------------------------------------------------------------------
  // Entity kinds, event routing inside a model, and the removal-message
  // invariant.

  datatype EntityKind = ApplicationKind | CharmKind | MachineKind | UnitKind | BranchKind

  function EntityKeys(m: Model, k: EntityKind): set<string> {
    match k
    case ApplicationKind => m.applications.Keys
    case CharmKind => m.charms.Keys
    case MachineKind => m.machines.Keys
    case UnitKind => m.units.Keys
    case BranchKind => m.branches.Keys
  }

  function EntityResident(m: Model, k: EntityKind, key: string): Resident
    requires key in EntityKeys(m, k)
  {
    match k
    case ApplicationKind => m.applications[key].resident
    case CharmKind => m.charms[key].resident
    case MachineKind => m.machines[key].resident
    case UnitKind => m.units[key].resident
    case BranchKind => m.branches[key].resident
  }

  /** The entity kind an event addresses; None for model events. */
  function KindOf(e: Change): Option<EntityKind> {
    match e
    case ChangeModel(_) => None
    case RemoveModel(_) => None
    case ChangeApplication(_) => Some(ApplicationKind)
    case RemoveApplication(_, _) => Some(ApplicationKind)
    case ChangeCharm(_) => Some(CharmKind)
    case RemoveCharm(_, _) => Some(CharmKind)
    case ChangeMachine(_) => Some(MachineKind)
    case RemoveMachine(_, _) => Some(MachineKind)
    case ChangeUnit(_) => Some(UnitKind)
    case RemoveUnit(_, _) => Some(UnitKind)
    case ChangeBranch(_) => Some(BranchKind)
    case RemoveBranch(_, _) => Some(BranchKind)
  }

  /** The natural key of the entity an event addresses. */
  function KeyOf(e: Change): string {
    match e
    case ChangeModel(_) => ""
    case RemoveModel(_) => ""
    case ChangeApplication(d) => d.name
    case RemoveApplication(_, name) => name
    case ChangeCharm(d) => d.charmURL
    case RemoveCharm(_, url) => url
    case ChangeMachine(d) => d.id
    case RemoveMachine(_, id) => id
    case ChangeUnit(d) => d.name
    case RemoveUnit(_, name) => name
    case ChangeBranch(d) => d.name
    case RemoveBranch(_, name) => name
  }

  /** The model's update<Kind> for an entity change. */
  function ApplyEntityChange(env: Env, m: Model, ch: Change): (a: ModelApplied)
    requires !ch.IsRemoval() && KindOf(ch).Some?
    ensures a.model.resident == m.resident && a.model.details == m.details
    ensures forall k :: EntityKeys(a.model, k) ==
              if Some(k) == KindOf(ch) then EntityKeys(m, k) + {KeyOf(ch)} else EntityKeys(m, k)
  {
    match ch
    case ChangeApplication(d) =>
      var m' := UpdateApplication(env, m, d);
      assert m' == m.(applications := m'.applications);
      AddedOnlyAt(m, m', ApplicationKind, d.name);
      ModelApplied(m', [])
    case ChangeCharm(d) =>
      var m' := UpdateCharm(m, d);
      assert m' == m.(charms := m'.charms);
      AddedOnlyAt(m, m', CharmKind, d.charmURL);
      ModelApplied(m', [])
    case ChangeMachine(d) =>
      var a := UpdateMachine(env, m, d);
      AddedOnlyAt(m, a.model, MachineKind, d.id);
      a
    case ChangeUnit(d) =>
      var m' := UpdateUnit(m, d);
      assert m' == m.(units := m'.units);
      AddedOnlyAt(m, m', UnitKind, d.name);
      ModelApplied(m', [])
    case ChangeBranch(d) =>
      var m' := UpdateBranch(m, d);
      assert m' == m.(branches := m'.branches);
      AddedOnlyAt(m, m', BranchKind, d.name);
      ModelApplied(m', [])
  }

  /** `m'` is `m` with `key` added to the map of kind `k` (kept if already
      there), the other maps' key sets and the model's own resident and
      snapshot as they were. */
  lemma AddedOnlyAt(m: Model, m': Model, k: EntityKind, key: string)
    requires m'.resident == m.resident && m'.details == m.details
    requires EntityKeys(m', k) == EntityKeys(m, k) + {key}
    requires k != ApplicationKind ==> m'.applications == m.applications
    requires k != CharmKind ==> m'.charms == m.charms
    requires k != MachineKind ==> m'.machines == m.machines
    requires k != UnitKind ==> m'.units == m.units
    requires k != BranchKind ==> m'.branches == m.branches
    ensures forall k2 :: EntityKeys(m', k2) == if k2 == k then EntityKeys(m, k2) + {key} else EntityKeys(m, k2)
  {
  }

  /** An entity change refreshes the resident it addresses and leaves the
      resident of every other entity as it was. */
  lemma EntityChangeRefreshes(env: Env, m: Model, ch: Change)
    requires !ch.IsRemoval() && KindOf(ch).Some?
    ensures var m' := ApplyEntityChange(env, m, ch).model;
            KeyOf(ch) in EntityKeys(m', KindOf(ch).value) && !EntityResident(m', KindOf(ch).value, KeyOf(ch)).stale
    ensures var m' := ApplyEntityChange(env, m, ch).model;
            forall k, n :: n in EntityKeys(m, k) && (Some(k) != KindOf(ch) || n != KeyOf(ch)) ==>
              n in EntityKeys(m', k) && EntityResident(m', k, n) == EntityResident(m, k, n)
  {
    var m' := ApplyEntityChange(env, m, ch).model;
    if ch.ChangeMachine? {
      assert m'.machines == PutMachine(env, m.machines, ch.machine);
    }
    forall k, n | n in EntityKeys(m, k) && (Some(k) != KindOf(ch) || n != KeyOf(ch))
      ensures n in EntityKeys(m', k) && EntityResident(m', k, n) == EntityResident(m, k, n)
    {
      EntityChangeKeepsOther(env, m, ch, k, n);
    }
  }

  lemma EntityChangeKeepsOther(env: Env, m: Model, ch: Change, k: EntityKind, n: string)
    requires !ch.IsRemoval() && KindOf(ch).Some?
    requires n in EntityKeys(m, k) && (Some(k) != KindOf(ch) || n != KeyOf(ch))
    ensures var m' := ApplyEntityChange(env, m, ch).model;
            n in EntityKeys(m', k) && EntityResident(m', k, n) == EntityResident(m, k, n)
  {
    var m' := ApplyEntityChange(env, m, ch).model;
    match ch
    case ChangeApplication(d) =>
      assert m' == m.(applications := m'.applications);
    case ChangeCharm(d) =>
      assert m' == m.(charms := m'.charms);
    case ChangeMachine(d) =>
      assert m'.machines == PutMachine(env, m.machines, d);
    case ChangeUnit(d) =>
      assert m' == m.(units := m'.units);
    case ChangeBranch(d) =>
      assert m' == m.(branches := m'.branches);
  }

  /** On a model created on demand, an entity change leaves exactly its
      own key in its own kind's map and every other map empty. */
  lemma FirstEntityKeys(env: Env, ch: Change, k: EntityKind)
    requires !ch.IsRemoval() && KindOf(ch).Some?
    ensures EntityKeys(ApplyEntityChange(env, EmptyModel, ch).model, k) ==
              if Some(k) == KindOf(ch) then {KeyOf(ch)} else {}
  {
    assert EntityKeys(EmptyModel, k) == {};
  }

  /** The model's remove<Kind> for an entity removal: the entity goes, if
      present; everything else stays as it was. */
  function ApplyEntityRemoval(env: Env, m: Model, ch: Change): (a: ModelApplied)
    requires ch.IsRemoval() && KindOf(ch).Some?
    ensures a.model.resident == m.resident && a.model.details == m.details
    ensures forall k :: EntityKeys(a.model, k) ==
              if Some(k) == KindOf(ch) then EntityKeys(m, k) - {KeyOf(ch)} else EntityKeys(m, k)
    ensures forall k, n :: n in EntityKeys(a.model, k) ==> EntityResident(a.model, k, n) == EntityResident(m, k, n)
    ensures KeyOf(ch) !in EntityKeys(m, KindOf(ch).value) ==> a.model == m
  {
    match ch
    case RemoveApplication(_, name) =>
      var m' := m.(applications := m.applications - {name});
      ApplicationRemovedOnly(m, name);
      ModelApplied(m', [])
    case RemoveCharm(_, url) =>
      var m' := m.(charms := m.charms - {url});
      CharmRemovedOnly(m, url);
      ModelApplied(m', [])
    case RemoveMachine(_, id) =>
      var a := RemoveMachineFrom(env, m, id);
      MachineRemovedOnly(env, m, id);
      a
    case RemoveUnit(_, name) =>
      var m' := m.(units := m.units - {name});
      UnitRemovedOnly(m, name);
      ModelApplied(m', [])
    case RemoveBranch(_, name) =>
      var m' := m.(branches := m.branches - {name});
      BranchRemovedOnly(m, name);
      ModelApplied(m', [])
  }

  /** `m'` is `m` with the entity of kind `k` under `key` taken out of its
      map, and every other map and resident as it was. */
  predicate RemovedOnly(m: Model, m': Model, k: EntityKind, key: string) {
    && m'.resident == m.resident && m'.details == m.details
    && (forall k2 :: EntityKeys(m', k2) == if k2 == k then EntityKeys(m, k2) - {key} else EntityKeys(m, k2))
    && (forall k2, n :: n in EntityKeys(m', k2) ==> EntityResident(m', k2, n) == EntityResident(m, k2, n))
    && (key !in EntityKeys(m, k) ==> m' == m)
  }

  lemma ApplicationRemovedOnly(m: Model, key: string)
    ensures RemovedOnly(m, m.(applications := m.applications - {key}), ApplicationKind, key)
  {
    if key !in m.applications {
      assert m.applications - {key} == m.applications;
    }
  }

  lemma CharmRemovedOnly(m: Model, key: string)
    ensures RemovedOnly(m, m.(charms := m.charms - {key}), CharmKind, key)
  {
    if key !in m.charms {
      assert m.charms - {key} == m.charms;
    }
  }

  lemma MachineRemovedOnly(env: Env, m: Model, key: string)
    ensures RemovedOnly(m, RemoveMachineFrom(env, m, key).model, MachineKind, key)
  {
    var m' := RemoveMachineFrom(env, m, key).model;
    assert m' == m.(machines := m'.machines, machineWatchers := m'.machineWatchers);
  }

  lemma UnitRemovedOnly(m: Model, key: string)
    ensures RemovedOnly(m, m.(units := m.units - {key}), UnitKind, key)
  {
    if key !in m.units {
      assert m.units - {key} == m.units;
    }
  }

  lemma BranchRemovedOnly(m: Model, key: string)
    ensures RemovedOnly(m, m.(branches := m.branches - {key}), BranchKind, key)
  {
    if key !in m.branches {
      assert m.branches - {key} == m.branches;
    }
  }

  predicate RemovalIs(r: Resident, e: Change) {
    r.removalMessage.None? || r.removalMessage == Some(e)
  }

  /** Every removal message stored in model `u` is the removal of the entry
      holding it. */
  predicate RemovalsWf(u: string, m: Model) {
    && RemovalIs(m.resident, RemoveModel(u))
    && (forall n :: n in m.applications ==> RemovalIs(m.applications[n].resident, RemoveApplication(u, n)))
    && (forall n :: n in m.charms ==> RemovalIs(m.charms[n].resident, RemoveCharm(u, n)))
    && (forall n :: n in m.machines ==> RemovalIs(m.machines[n].resident, RemoveMachine(u, n)))
    && (forall n :: n in m.units ==> RemovalIs(m.units[n].resident, RemoveUnit(u, n)))
    && (forall n :: n in m.branches ==> RemovalIs(m.branches[n].resident, RemoveBranch(u, n)))
  }

  /** The removal event for the entity of kind `k` under key `n` in model `u`. */
  function RemovalFor(k: EntityKind, u: string, n: string): (e: Change)
    ensures e.IsRemoval() && KindOf(e) == Some(k) && KeyOf(e) == n && e.ModelOf() == u
  {
    match k
    case ApplicationKind => RemoveApplication(u, n)
    case CharmKind => RemoveCharm(u, n)
    case MachineKind => RemoveMachine(u, n)
    case UnitKind => RemoveUnit(u, n)
    case BranchKind => RemoveBranch(u, n)
  }

  /** The invariant, read at one entity. */
  lemma RemovalsWfAt(u: string, m: Model, k: EntityKind, n: string)
    requires RemovalsWf(u, m) && n in EntityKeys(m, k)
    ensures RemovalIs(EntityResident(m, k, n), RemovalFor(k, u, n))
  {
  }

  lemma EmptyModelWf(u: string)
    ensures RemovalsWf(u, EmptyModel)
  {
  }

  lemma SetDetailsKeepsWf(env: Env, m: Model, ch: ModelChange)
    requires RemovalsWf(ch.modelUUID, m)
    ensures RemovalsWf(ch.modelUUID, SetDetails(env, m, ch).model)
  {
  }

  lemma EntityChangeKeepsWf(env: Env, m: Model, ch: Change)
    requires !ch.IsRemoval() && KindOf(ch).Some?
    requires RemovalsWf(ch.ModelOf(), m)
    ensures RemovalsWf(ch.ModelOf(), ApplyEntityChange(env, m, ch).model)
  {
    if ch.ChangeMachine? {
      MachineChangeKeepsWf(env, m, ch.machine);
    } else {
      UpsertKeepsWf(env, m, ch);
    }
  }

  lemma MachineChangeKeepsWf(env: Env, m: Model, d: MachineChange)
    requires RemovalsWf(d.modelUUID, m)
    ensures RemovalsWf(d.modelUUID, UpdateMachine(env, m, d).model)
  {
    var m' := UpdateMachine(env, m, d).model;
    var ms := PutMachine(env, m.machines, d);
    assert m' == m.(machines := ms, machineWatchers := m'.machineWatchers);
    assert forall n :: n in ms ==> RemovalIs(ms[n].resident, RemoveMachine(d.modelUUID, n));
  }

  lemma UpsertKeepsWf(env: Env, m: Model, ch: Change)
    requires !ch.IsRemoval() && KindOf(ch).Some? && !ch.ChangeMachine?
    requires RemovalsWf(ch.ModelOf(), m)
    ensures RemovalsWf(ch.ModelOf(), ApplyEntityChange(env, m, ch).model)
  {
    match ch
    case ChangeApplication(d) => ApplicationChangeKeepsWf(env, m, d);
    case ChangeCharm(d) => CharmChangeKeepsWf(m, d);
    case ChangeUnit(d) => UnitChangeKeepsWf(m, d);
    case ChangeBranch(d) => BranchChangeKeepsWf(m, d);
  }

  lemma ApplicationChangeKeepsWf(env: Env, m: Model, d: ApplicationChange)
    requires RemovalsWf(d.modelUUID, m)
    ensures RemovalsWf(d.modelUUID, UpdateApplication(env, m, d))
  {
    var m' := UpdateApplication(env, m, d);
    assert m' == m.(applications := m'.applications);
  }

  lemma CharmChangeKeepsWf(m: Model, d: CharmChange)
    requires RemovalsWf(d.modelUUID, m)
    ensures RemovalsWf(d.modelUUID, UpdateCharm(m, d))
  {
    var m' := UpdateCharm(m, d);
    assert m' == m.(charms := m'.charms);
  }

  lemma UnitChangeKeepsWf(m: Model, d: UnitChange)
    requires RemovalsWf(d.modelUUID, m)
    ensures RemovalsWf(d.modelUUID, UpdateUnit(m, d))
  {
    var m' := UpdateUnit(m, d);
    assert m' == m.(units := m'.units);
  }

  lemma BranchChangeKeepsWf(m: Model, d: BranchChange)
    requires RemovalsWf(d.modelUUID, m)
    ensures RemovalsWf(d.modelUUID, UpdateBranch(m, d))
  {
    var m' := UpdateBranch(m, d);
    assert m' == m.(branches := m'.branches);
  }

  lemma EntityRemovalKeepsWf(env: Env, m: Model, ch: Change)
    requires ch.IsRemoval() && KindOf(ch).Some?
    requires RemovalsWf(ch.ModelOf(), m)
    ensures RemovalsWf(ch.ModelOf(), ApplyEntityRemoval(env, m, ch).model)
  {
    var m' := ApplyEntityRemoval(env, m, ch).model;
    match ch
    case RemoveApplication(u, name) =>
      assert m' == m.(applications := m.applications - {name});
    case RemoveCharm(u, url) =>
      assert m' == m.(charms := m.charms - {url});
    case RemoveMachine(u, id) =>
      assert m'.machines == m.machines - {id};
      assert m' == m.(machines := m'.machines, machineWatchers := m'.machineWatchers);
    case RemoveUnit(u, name) =>
      assert m' == m.(units := m.units - {name});
    case RemoveBranch(u, name) =>
      assert m' == m.(branches := m.branches - {name});
  }

  lemma MarkKeepsWf(u: string, m: Model)
    requires RemovalsWf(u, m)
    ensures RemovalsWf(u, Mark(m))
  {
  }

  /** After a unit change is applied, a lookup of the unit returns the
      stored ports; values cannot alias, so no earlier result can alter them. */
  lemma UnitReturnsCopy(m: Model, ch: UnitChange)
    ensures var m' := UpdateUnit(m, ch);
            Unit(m', ch.name).Ok? && Ports(Unit(m', ch.name).value) == ch.ports
  {
  }

  /** After a branch change is applied, a lookup of the branch returns the
      stored assigned units. */
  lemma BranchReturnsCopy(m: Model, ch: BranchChange)
    ensures var m' := UpdateBranch(m, ch);
            Branch(m', ch.name).Ok? && AssignedUnits(Branch(m', ch.name).value) == ch.assignedUnits
  {
  }
}
