/** The cached machine (core/cache/machine.go): its accessors, the
    setDetails routine the controller's apply loop calls, the unit placement
    query and the seeding of the container watcher. */
module CacheMachine {
  import opened Errors
  import opened CacheTypes

  type Machine = Entity<MachineChange>
  type Unit = Entity<UnitChange>

  const machineProvisioned := "machine-provisioned"

  const EmptyMachineChange := MachineChange("", "", "", "", [], map[])

  /** newMachine: a fresh resident and the zero snapshot, so the first
      setDetails compares the new instance id against "". */
  const NewMachine: Machine := Entity(NewResident, EmptyMachineChange, "")

  /** InstanceId: the provider instance id, or NotProvisioned while none
      has been recorded. */
  function InstanceId(m: Machine): (r: Result<string>)
    ensures r.Ok? <==> m.details.instanceId != ""
    ensures r.Ok? ==> r.value == m.details.instanceId
    ensures r.Err? ==> r.error == Error(NotProvisioned, "machine " + m.details.id + " not provisioned")
  {
    if m.details.instanceId == "" then
      Err(Error(NotProvisioned, "machine " + m.details.id + " not provisioned"))
    else
      Ok(m.details.instanceId)
  }

  /** topic: instance-scoped hub topic "<machine id>:<suffix>". */
  function Topic(m: Machine, suffix: string): (t: Topic)
    ensures t.InstanceTopic? && |t.name| == |m.details.id| + 1 + |suffix|
    ensures t.name[..|m.details.id|] == m.details.id && t.name[|m.details.id|] == ':'
    ensures t.name[|m.details.id| + 1..] == suffix
  {
    var t := InstanceTopic(m.details.id + ":" + suffix);
    assert t.name[..|m.details.id|] == m.details.id && t.name[|m.details.id| + 1..] == suffix;
    t
  }

  /** A machine's topics for different suffixes are different, and two
      machines with different ids never share a topic for one suffix. */
  lemma TopicInjective(m1: Machine, m2: Machine, s1: string, s2: string)
    requires Topic(m1, s1) == Topic(m2, s2)
    requires m1.details.id == m2.details.id || s1 == s2
    ensures m1.details.id == m2.details.id && s1 == s2
  {
    var t := Topic(m1, s1);
    assert |m1.details.id| == |m2.details.id|;
    assert m1.details.id == t.name[..|m1.details.id|] == m2.details.id;
    assert s1 == t.name[|m1.details.id| + 1..] == s2;
  }

  function ProvisionedMessage(id: string): Message {
    Message(InstanceTopic(id + ":" + machineProvisioned), [])
  }

  datatype Applied = Applied(machine: Machine, published: seq<Message>)

  /** setDetails: first receipt fixes the removal message, the entity is no
      longer stale, the snapshot is replaced, "<id>:machine-provisioned" is
      published whenever the instance id differs from the previous one
      (the topic uses the new id), and the config hash is refreshed. */
  function SetDetails(env: Env, m: Machine, d: MachineChange): (a: Applied)
    ensures a.machine.details == d && !a.machine.resident.stale
    ensures m.resident.removalMessage.Some? ==>
              a.machine.resident.removalMessage == m.resident.removalMessage
    ensures m.resident.removalMessage.None? ==>
              a.machine.resident.removalMessage == Some(RemoveMachine(d.modelUUID, d.id))
    ensures a.published == if d.instanceId != m.details.instanceId then [ProvisionedMessage(d.id)] else []
    ensures a.machine.configHash == HashOrEmpty(env, d.config)
    ensures a.machine.resident.workers == m.resident.workers
    ensures a.machine.resident.lastWorker == m.resident.lastWorker
  {
    var provisioned := d.instanceId != m.details.instanceId;
    var updated := Entity(Refresh(m.resident, RemoveMachine(d.modelUUID, d.id)), d, m.configHash);
    var published := if provisioned then [Message(Topic(updated, machineProvisioned), [])] else [];
    var configHash := HashOrEmpty(env, d.config);
    Applied(if configHash != updated.configHash then updated.(configHash := configHash) else updated,
            published)
  }

  /** A run of setDetails calls, publishing in order. */
  function SetDetailsAll(env: Env, m: Machine, ds: seq<MachineChange>): Applied
    decreases |ds|
  {
    if |ds| == 0 then Applied(m, [])
    else
      var first := SetDetails(env, m, ds[0]);
      var rest := SetDetailsAll(env, first.machine, ds[1..]);
      Applied(rest.machine, first.published + rest.published)
  }

  /** Number of snapshots whose instance id differs from the one before it
      (`prev` before the first). */
  function Transitions(prev: string, ds: seq<MachineChange>): nat
    decreases |ds|
  {
    if |ds| == 0 then 0
    else (if ds[0].instanceId != prev then 1 else 0) + Transitions(ds[0].instanceId, ds[1..])
  }

  /** Once a removal message is set, no later setDetails changes it. */
  lemma {:induction false} RemovalMessageKept(env: Env, m: Machine, ds: seq<MachineChange>)
    requires m.resident.removalMessage.Some?
    ensures SetDetailsAll(env, m, ds).machine.resident.removalMessage == m.resident.removalMessage
    decreases |ds|
  {
    if |ds| > 0 {
      RemovalMessageKept(env, SetDetails(env, m, ds[0]).machine, ds[1..]);
    }
  }

  /** The removal message comes from the first snapshot ever received. */
  lemma RemovalMessageFromFirstReceipt(env: Env, m: Machine, ds: seq<MachineChange>)
    requires m.resident.removalMessage.None? && |ds| > 0
    ensures SetDetailsAll(env, m, ds).machine.resident.removalMessage
              == Some(RemoveMachine(ds[0].modelUUID, ds[0].id))
  {
    RemovalMessageKept(env, SetDetails(env, m, ds[0]).machine, ds[1..]);
  }

  /** Last write wins: the final snapshot and its hash are what is cached,
      and the machine is not stale. */
  lemma {:induction false} LastWriteWins(env: Env, m: Machine, ds: seq<MachineChange>)
    requires |ds| > 0
    ensures SetDetailsAll(env, m, ds).machine.details == ds[|ds| - 1]
    ensures SetDetailsAll(env, m, ds).machine.configHash == HashOrEmpty(env, ds[|ds| - 1].config)
    ensures !SetDetailsAll(env, m, ds).machine.resident.stale
    decreases |ds|
  {
    if |ds| > 1 {
      LastWriteWins(env, SetDetails(env, m, ds[0]).machine, ds[1..]);
    }
  }

  /** One "machine-provisioned" publish per change of instance id, and
      every publish names the machine id of some applied snapshot. */
  lemma {:induction false} ProvisionedPublishes(env: Env, m: Machine, ds: seq<MachineChange>)
    ensures |SetDetailsAll(env, m, ds).published| == Transitions(m.details.instanceId, ds)
    ensures forall msg :: msg in SetDetailsAll(env, m, ds).published ==>
              exists d :: d in ds && msg == ProvisionedMessage(d.id)
    decreases |ds|
  {
    if |ds| > 0 {
      var first := SetDetails(env, m, ds[0]);
      ProvisionedPublishes(env, first.machine, ds[1..]);
      var all := SetDetailsAll(env, m, ds);
      forall msg | msg in all.published
        ensures exists d :: d in ds && msg == ProvisionedMessage(d.id)
      {
        if msg in first.published {
          assert msg == ProvisionedMessage(ds[0].id);
        } else {
          var d :| d in ds[1..] && msg == ProvisionedMessage(d.id);
          assert d in ds;
        }
      }
    }
  }

  // ---------------------------------------------------------------------
  // Units(): units placed on the machine, directly or through a principal.

  datatype UnitsOutcome = UnitsOutcome(units: seq<Unit>, error: Option<Error>)

  predicate PlacedDirectly(id: string, u: Unit) {
    u.details.machineId == id
  }

  predicate PlacedViaPrincipal(id: string, units: map<string, Unit>, u: Unit) {
    && u.details.subordinate
    && u.details.principal in units
    && units[u.details.principal].details.machineId == id
  }

  predicate MissingPrincipal(units: map<string, Unit>, u: Unit) {
    u.details.subordinate && u.details.principal !in units
  }

  /** order[j] names u, and u is on the machine directly or through its principal. */
  predicate Placed(id: string, units: map<string, Unit>, order: seq<string>, j: nat, u: Unit)
    requires j < |order| && order[j] in units
  {
    u == units[order[j]] && (PlacedDirectly(id, u) || PlacedViaPrincipal(id, units, u))
  }

  function MissingPrincipalError(name: string, u: Unit): Error {
    NotFoundf("principal unit " + Quote(u.details.principal) + " for subordinate " + name)
  }

  /** What the loop of Units has produced after visiting order[..n]: the
      units placed so far, or the NotFound error of the first subordinate
      whose principal is missing, with the units collected up to it. */
  function UnitsUpTo(id: string, units: map<string, Unit>, order: seq<string>, n: nat): UnitsOutcome
    requires n <= |order|
    requires forall k :: k in order ==> k in units
    decreases n
  {
    if n == 0 then UnitsOutcome([], None)
    else
      var prev := UnitsUpTo(id, units, order, n - 1);
      if prev.error.Some? then prev
      else
        var u := units[order[n - 1]];
        var direct := if PlacedDirectly(id, u) then [u] else [];
        if MissingPrincipal(units, u) then
          UnitsOutcome(prev.units + direct, Some(MissingPrincipalError(order[n - 1], u)))
        else
          UnitsOutcome(prev.units + direct + (if PlacedViaPrincipal(id, units, u) then [u] else []), None)
  }

  /** Units: walks the model's unit map once, appending a unit when it sits
      on this machine and again when it is a subordinate of a principal on
      this machine; fails with NotFound on a subordinate whose principal is
      absent. */
  method Units(m: Machine, units: map<string, Unit>, order: seq<string>)
    returns (result: seq<Unit>, err: Option<Error>)
    requires Enumerates(order, units.Keys)
    ensures UnitsOutcome(result, err) == UnitsUpTo(m.details.id, units, order, |order|)
  {
    result := [];
    var i := 0;
    while i < |order|
      invariant 0 <= i <= |order|
      invariant UnitsUpTo(m.details.id, units, order, i) == UnitsOutcome(result, None)
    {
      var unitName := order[i];
      var unit := units[unitName];
      if unit.details.machineId == m.details.id {
        result := result + [unit];
      }
      if unit.details.subordinate {
        if unit.details.principal !in units {
          UnitsErrorSticks(m.details.id, units, order, i + 1, |order|);
          return result, Some(MissingPrincipalError(unitName, unit));
        }
        var principalUnit := units[unit.details.principal];
        if principalUnit.details.machineId == m.details.id {
          result := result + [unit];
        }
      }
      i := i + 1;
    }
    err := None;
  }

  /** The walk stops at the first error: nothing after it changes the outcome. */
  lemma {:induction false} UnitsErrorSticks(id: string, units: map<string, Unit>, order: seq<string>, j: nat, n: nat)
    requires j <= n <= |order|
    requires forall k :: k in order ==> k in units
    requires UnitsUpTo(id, units, order, j).error.Some?
    ensures UnitsUpTo(id, units, order, n) == UnitsUpTo(id, units, order, j)
    decreases n - j
  {
    if j < n {
      UnitsErrorSticks(id, units, order, j, n - 1);
    }
  }

  /** Units fails exactly when some visited subordinate's principal is
      missing, and the failure is NotFound. */
  lemma {:induction false} UnitsErrorIff(id: string, units: map<string, Unit>, order: seq<string>, n: nat)
    requires n <= |order|
    requires forall k :: k in order ==> k in units
    ensures UnitsUpTo(id, units, order, n).error.Some? <==>
              exists j :: 0 <= j < n && MissingPrincipal(units, units[order[j]])
    ensures UnitsUpTo(id, units, order, n).error.Some? ==>
              UnitsUpTo(id, units, order, n).error.value.kind == NotFound
    decreases n
  {
    if n > 0 {
      UnitsErrorIff(id, units, order, n - 1);
      if MissingPrincipal(units, units[order[n - 1]]) {
        assert exists j :: 0 <= j < n && MissingPrincipal(units, units[order[j]]);
      }
    }
  }

  /** Without an error, a unit is in the result exactly when it is one of
      the visited units and is placed on the machine directly or through
      its principal. */
  lemma {:induction false} UnitsMembership(id: string, units: map<string, Unit>, order: seq<string>, n: nat)
    requires n <= |order|
    requires forall k :: k in order ==> k in units
    requires UnitsUpTo(id, units, order, n).error.None?
    ensures forall u :: u in UnitsUpTo(id, units, order, n).units <==>
              exists j :: 0 <= j < n && Placed(id, units, order, j, u)
    decreases n
  {
    if n > 0 {
      UnitsMembership(id, units, order, n - 1);
      var now := UnitsUpTo(id, units, order, n).units;
      forall u
        ensures u in now <==> exists j :: 0 <= j < n && Placed(id, units, order, j, u)
      {
        if Placed(id, units, order, n - 1, u) {
          assert u in now;
        }
      }
    }
  }

  /** The result only grows as the walk goes on. */
  lemma {:induction false} UnitsPrefix(id: string, units: map<string, Unit>, order: seq<string>, j: nat, n: nat)
    requires j <= n <= |order|
    requires forall k :: k in order ==> k in units
    requires UnitsUpTo(id, units, order, n).error.None?
    ensures UnitsUpTo(id, units, order, j).units <= UnitsUpTo(id, units, order, n).units
    decreases n - j
  {
    if j < n {
      UnitsPrefix(id, units, order, j, n - 1);
    }
  }

  /** No de-duplication: a subordinate that sits on the machine and whose
      principal also does is listed twice. */
  lemma UnitsListsBothPlacements(id: string, units: map<string, Unit>, order: seq<string>, j: nat)
    requires j < |order|
    requires forall k :: k in order ==> k in units
    requires UnitsUpTo(id, units, order, |order|).error.None?
    requires PlacedDirectly(id, units[order[j]]) && PlacedViaPrincipal(id, units, units[order[j]])
    ensures multiset(UnitsUpTo(id, units, order, |order|).units)[units[order[j]]] >= 2
  {
    var u := units[order[j]];
    UnitsPrefix(id, units, order, j + 1, |order|);
    var upTo := UnitsUpTo(id, units, order, j + 1).units;
    var all := UnitsUpTo(id, units, order, |order|).units;
    var prev := UnitsUpTo(id, units, order, j).units;
    if UnitsUpTo(id, units, order, j).error.Some? {
      UnitsErrorSticks(id, units, order, j, |order|);
    }
    assert upTo == prev + [u] + [u];
    assert multiset(upTo)[u] >= 2;
    assert all == upTo + all[|upTo|..];
    assert multiset(all) == multiset(upTo) + multiset(all[|upTo|..]);
  }

  // ---------------------------------------------------------------------
  // WatchContainers: the initial id set and the watcher's registration.

  /** containerRegexp: "^" + machine id + names.ContainerSnippet, matched
      as a prefix; the snippet part is the abstract collaborator. */
  predicate IsContainerOf(env: Env, machineId: string, candidate: string) {
    && |machineId| <= |candidate|
    && candidate[..|machineId|] == machineId
    && env.beginsWithContainerSnippet(candidate[|machineId|..])
  }

  /** The initial slice: the key of every model machine whose id matches
      the container pattern of `m`. */
  method InitialContainers(env: Env, m: Machine, machines: map<string, Machine>, order: seq<string>)
    returns (ids: seq<string>)
    requires Enumerates(order, machines.Keys)
    ensures forall k :: k in ids <==> k in machines && IsContainerOf(env, m.details.id, machines[k].details.id)
    ensures forall i, j :: 0 <= i < j < |ids| ==> ids[i] != ids[j]
  {
    ids := [];
    var i := 0;
    while i < |order|
      invariant 0 <= i <= |order|
      invariant forall k :: k in ids <==>
                  k in order[..i] && IsContainerOf(env, m.details.id, machines[k].details.id)
      invariant forall a, b :: 0 <= a < b < |ids| ==> ids[a] != ids[b]
    {
      var k := order[i];
      assert order[..i + 1] == order[..i] + [k];
      assert k !in order[..i];
      if IsContainerOf(env, m.details.id, machines[k].details.id) {
        ids := ids + [k];
      }
      i := i + 1;
    }
    assert order[..i] == order;
  }

  /** A predicate strings watcher on the model-wide add/remove-machine feed. */
  datatype ContainersWatcher = ContainersWatcher(machineId: string, pending: seq<string>, registration: nat)

  /** The watcher's `changed` handler: ids matching the predicate are queued. */
  function ContainersChanged(env: Env, w: ContainersWatcher, ids: seq<string>): (w': ContainersWatcher)
    ensures w'.machineId == w.machineId && w'.registration == w.registration
    ensures forall x :: x in w'.pending <==> x in w.pending || (x in ids && IsContainerOf(env, w.machineId, x))
    ensures w.pending <= w'.pending
    decreases |ids|
  {
    if |ids| == 0 then w
    else
      var head := if IsContainerOf(env, w.machineId, ids[0]) then [ids[0]] else [];
      ContainersChanged(env, w.(pending := w.pending + head), ids[1..])
  }

  datatype WatchRegistration = WatchRegistration(resident: Resident, deregister: nat)

  /** Registration as machine.go writes it: once before the watcher starts
      (the deregistration its death runs) and once more after. */
  function RegisterContainersWatcherAsWritten(r: Resident): (g: WatchRegistration)
    requires WorkersWf(r)
    ensures WorkersWf(g.resident)
    ensures g.deregister in g.resident.workers && g.deregister !in r.workers
    ensures g.deregister == r.lastWorker + 1
    ensures g.resident.workers == r.workers + {r.lastWorker + 1, r.lastWorker + 2}
    ensures r.lastWorker + 2 !in r.workers
  {
    var first := RegisterWorker(r);
    var second := RegisterWorker(first.resident);
    WatchRegistration(second.resident, first.id)
  }

  /** Registration with the second call dropped. */
  function RegisterContainersWatcher(r: Resident): (g: WatchRegistration)
    requires WorkersWf(r)
    ensures WorkersWf(g.resident)
    ensures g.deregister !in r.workers
    ensures g.resident.workers == r.workers + {g.deregister}
  {
    var first := RegisterWorker(r);
    WatchRegistration(first.resident, first.id)
  }

  /** The watcher's death: it unsubscribes and runs its deregistration. */
  function OnContainersWatcherDeath(r: Resident, g: WatchRegistration): Resident
    requires WorkersWf(g.resident)
  {
    DeregisterWorker(g.resident, g.deregister)
  }

  /** As written, a watcher that has died is still registered with the
      machine: the second registration is never undone. */
  lemma ContainersWatcherLeaksAsWritten(r: Resident)
    requires WorkersWf(r)
    ensures var g := RegisterContainersWatcherAsWritten(r);
            OnContainersWatcherDeath(r, g).workers == r.workers + {r.lastWorker + 2}
  {
  }

  /** With one registration, the machine's workers are back to what they
      were once the watcher has died. */
  lemma ContainersWatcherReleased(r: Resident)
    requires WorkersWf(r)
    ensures var g := RegisterContainersWatcher(r);
            OnContainersWatcherDeath(r, g).workers == r.workers
  {
    var g := RegisterContainersWatcher(r);
    assert g.deregister !in r.workers;
  }

  datatype Watched = Watched(machine: Machine, watcher: ContainersWatcher)

  /** WatchContainers (registering once): seeds the watcher with the current
      containers of this machine and registers it with the machine. */
  method WatchContainers(env: Env, m: Machine, machines: map<string, Machine>, order: seq<string>)
    returns (w: Watched)
    requires Enumerates(order, machines.Keys)
    requires WorkersWf(m.resident)
    ensures forall k :: k in w.watcher.pending <==>
              k in machines && IsContainerOf(env, m.details.id, machines[k].details.id)
    ensures w.watcher.machineId == m.details.id
    ensures w.machine.resident.workers == m.resident.workers + {w.watcher.registration}
    ensures w.watcher.registration !in m.resident.workers
    ensures w.machine.details == m.details
  {
    var ids := InitialContainers(env, m, machines, order);
    var g := RegisterContainersWatcher(m.resident);
    w := Watched(m.(resident := g.resident), ContainersWatcher(m.details.id, ids, g.deregister));
  }
}
