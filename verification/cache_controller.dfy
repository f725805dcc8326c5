/** The cache controller (core/cache Controller), whose behaviour here is
    what core/cache/controller_test.go asserts of it: config validation,
    routing of change and removal events to models created on demand,
    the notify hook, and mark-and-sweep reconciliation. */
module CacheController {
  import opened Errors
  import opened CacheTypes
  import CacheMachine
  import CacheModel

  /** Config: whether the Changes channel and the Notify hook are set. */
  datatype ControllerConfig = ControllerConfig(hasChanges: bool, hasNotify: bool)

  /** Config.Validate: a nil Changes channel is NotValid. */
  function ValidateConfig(cfg: ControllerConfig): (r: Option<Error>)
    ensures r.Some? <==> !cfg.hasChanges
    ensures r.Some? ==> r.value.kind == NotValid && r.value.message == "nil Changes not valid"
  {
    if !cfg.hasChanges then Some(NotValidf("nil Changes")) else None
  }

  datatype Controller = Controller(models: map<string, CacheModel.Model>, marked: bool)

  const NewController := Controller(map[], false)

  function ModelUUIDs(c: Controller): set<string> {
    c.models.Keys
  }

  function Marked(c: Controller): bool {
    c.marked
  }

  /** Model(uuid): the cached model, or NotFound. */
  function Model(c: Controller, uuid: string): (r: Result<CacheModel.Model>)
    ensures r.Ok? <==> uuid in c.models
    ensures r.Ok? ==> r.value == c.models[uuid]
    ensures r.Err? ==> r.error.kind == NotFound
  {
    if uuid in c.models then Ok(c.models[uuid]) else Err(NotFoundf("model " + Quote(uuid)))
  }

  /** Report: one model report per model UUID. */
  function Report(c: Controller): (r: map<string, map<string, CacheModel.ReportValue>>)
    ensures r.Keys == c.models.Keys
    ensures forall u :: u in r ==> r[u] == CacheModel.Report(c.models[u])
  {
    map u | u in c.models :: CacheModel.Report(c.models[u])
  }

  /** A new controller has no models and an empty report. */
  lemma NewControllerEmpty()
    ensures ModelUUIDs(NewController) == {} && Report(NewController) == map[]
    ensures !Marked(NewController)
    ensures forall u :: Model(NewController, u).Err?
  {
  }

  // ---------------------------------------------------------------------
  // Applying events.

  /** The model a change is routed to, created empty when absent. */
  function EnsureModel(c: Controller, uuid: string): CacheModel.Model {
    if uuid in c.models then c.models[uuid] else CacheModel.EmptyModel
  }

  function WithModel(c: Controller, uuid: string, m: CacheModel.Model): Controller {
    c.(models := c.models[uuid := m])
  }

  datatype ControllerApplied = ControllerApplied(controller: Controller, published: seq<Message>)

  /** The apply loop's dispatch on one event: changes go to the addressed
      model, created on demand; removals are no-ops when the model or the
      entity is absent. */
  function Apply(env: Env, c: Controller, ch: Change): (a: ControllerApplied)
    ensures a.controller.marked == c.marked
    ensures !ch.IsRemoval() ==> a.controller.models.Keys == c.models.Keys + {ch.ModelOf()}
    ensures ch.IsRemoval() && !ch.RemoveModel? ==> a.controller.models.Keys == c.models.Keys
    ensures ch.RemoveModel? ==> a.controller.models.Keys == c.models.Keys - {ch.modelUUID}
    ensures forall u :: u in c.models && u != ch.ModelOf() ==> a.controller.models[u] == c.models[u]
  {
    var u := ch.ModelOf();
    if ch.ChangeModel? then
      var applied := CacheModel.SetDetails(env, EnsureModel(c, u), ch.model);
      ControllerApplied(WithModel(c, u, applied.model), applied.published)
    else if ch.RemoveModel? then
      ControllerApplied(c.(models := c.models - {u}), [])
    else if !ch.IsRemoval() then
      var applied := CacheModel.ApplyEntityChange(env, EnsureModel(c, u), ch);
      ControllerApplied(WithModel(c, u, applied.model), applied.published)
    else if u in c.models then
      var applied := CacheModel.ApplyEntityRemoval(env, c.models[u], ch);
      ControllerApplied(WithModel(c, u, applied.model), applied.published)
    else
      ControllerApplied(c, [])
  }

  /** A run of events applied in order (the last one applied last). */
  function ApplyAll(env: Env, c: Controller, es: seq<Change>): Controller
    decreases |es|
  {
    if |es| == 0 then c else Apply(env, ApplyAll(env, c, es[..|es| - 1]), es[|es| - 1]).controller
  }

  lemma ApplyAllSnoc(env: Env, c: Controller, es: seq<Change>, e: Change)
    ensures ApplyAll(env, c, es + [e]) == Apply(env, ApplyAll(env, c, es), e).controller
  {
    assert (es + [e])[..|es|] == es;
  }

  /** What the notify hook was called with, and the state it was called in. */
  datatype Notified = Notified(change: Change, state: Controller)

  datatype Processed = Processed(controller: Controller, published: seq<Message>, notified: seq<Notified>)

  /** One turn of the apply loop: apply the event, then call the hook (when
      set) with that same event. */
  function Process(env: Env, cfg: ControllerConfig, c: Controller, ch: Change): (p: Processed)
    ensures p.controller == Apply(env, c, ch).controller
    ensures p.published == Apply(env, c, ch).published
    ensures p.notified == if cfg.hasNotify then [Notified(ch, p.controller)] else []
  {
    var a := Apply(env, c, ch);
    Processed(a.controller, a.published, if cfg.hasNotify then [Notified(ch, a.controller)] else [])
  }

  function ProcessAll(env: Env, cfg: ControllerConfig, c: Controller, es: seq<Change>): (p: Processed)
    decreases |es|
  {
    if |es| == 0 then Processed(c, [], [])
    else
      var prev := ProcessAll(env, cfg, c, es[..|es| - 1]);
      var last := Process(env, cfg, prev.controller, es[|es| - 1]);
      Processed(last.controller, prev.published + last.published, prev.notified + last.notified)
  }

  /** The hook sees every processed event exactly once, in order, each in
      the state right after that event was applied. */
  lemma {:induction false} NotifyOncePerChange(env: Env, cfg: ControllerConfig, c: Controller, es: seq<Change>)
    requires cfg.hasNotify
    ensures var p := ProcessAll(env, cfg, c, es);
            && p.controller == ApplyAll(env, c, es)
            && |p.notified| == |es|
            && forall i :: 0 <= i < |es| ==>
                 p.notified[i] == Notified(es[i], ApplyAll(env, c, es[..i + 1]))
    decreases |es|
  {
    if |es| > 0 {
      var init := es[..|es| - 1];
      NotifyOncePerChange(env, cfg, c, init);
      var prev := ProcessAll(env, cfg, c, init);
      var after := ApplyAll(env, c, es);
      assert after == Apply(env, prev.controller, es[|es| - 1]).controller;
      var notified := ProcessAll(env, cfg, c, es).notified;
      assert notified == prev.notified + [Notified(es[|es| - 1], after)];
      forall i | 0 <= i < |es|
        ensures notified[i] == Notified(es[i], ApplyAll(env, c, es[..i + 1]))
      {
        if i < |es| - 1 {
          assert init[..i + 1] == es[..i + 1];
          assert notified[i] == prev.notified[i];
        } else {
          assert es[..i + 1] == es;
        }
      }
    }
  }

  /** Without a hook nothing is notified. */
  lemma {:induction false} NoHookNoNotify(env: Env, cfg: ControllerConfig, c: Controller, es: seq<Change>)
    requires !cfg.hasNotify
    ensures ProcessAll(env, cfg, c, es).notified == []
    decreases |es|
  {
    if |es| > 0 {
      NoHookNoNotify(env, cfg, c, es[..|es| - 1]);
    }
  }

  // ---------------------------------------------------------------------
  // Resident locations and the removal-message invariant.

  /** Where a resident lives: a model, or an entity of a model under its key. */
  datatype Loc = ModelLoc(uuid: string) | EntityLoc(kind: CacheModel.EntityKind, uuid: string, key: string)

  /** A resident is registered at `loc`. */
  predicate Live(c: Controller, loc: Loc) {
    match loc
    case ModelLoc(u) => u in c.models
    case EntityLoc(k, u, key) => u in c.models && key in CacheModel.EntityKeys(c.models[u], k)
  }

  function ResidentAt(c: Controller, loc: Loc): Resident
    requires Live(c, loc)
  {
    match loc
    case ModelLoc(u) => c.models[u].resident
    case EntityLoc(k, u, key) => CacheModel.EntityResident(c.models[u], k, key)
  }

  /** The location an event addresses. */
  function Target(e: Change): Loc {
    match CacheModel.KindOf(e)
    case None => ModelLoc(e.ModelOf())
    case Some(k) => EntityLoc(k, e.ModelOf(), CacheModel.KeyOf(e))
  }

  /** A removal takes out its target and, for a model, everything in it. */
  predicate Hits(e: Change, loc: Loc) {
    Target(e) == loc || Target(e) == ModelLoc(loc.uuid)
  }

  /** Every stored removal message is the removal of the entry holding it. */
  predicate Wf(c: Controller) {
    forall u :: u in c.models ==> CacheModel.RemovalsWf(u, c.models[u])
  }

  /** In a well-formed controller a stored removal message is a removal
      event that targets the resident storing it. */
  lemma WfTarget(c: Controller, loc: Loc)
    requires Wf(c) && Live(c, loc) && ResidentAt(c, loc).removalMessage.Some?
    ensures Target(ResidentAt(c, loc).removalMessage.value) == loc
    ensures ResidentAt(c, loc).removalMessage.value.IsRemoval()
  {
    assert CacheModel.RemovalsWf(loc.uuid, c.models[loc.uuid]);
  }

  lemma NewControllerWf()
    ensures Wf(NewController)
  {
  }

  /** Every event keeps the controller well-formed. */
  lemma ApplyKeepsWf(env: Env, c: Controller, ch: Change)
    requires Wf(c)
    ensures Wf(Apply(env, c, ch).controller)
  {
    var u := ch.ModelOf();
    var m := EnsureModel(c, u);
    assert CacheModel.RemovalsWf(u, m) by {
      if u !in c.models {
        CacheModel.EmptyModelWf(u);
      }
    }
    if ch.ChangeModel? {
      CacheModel.SetDetailsKeepsWf(env, m, ch.model);
    } else if ch.RemoveModel? {
    } else if !ch.IsRemoval() {
      CacheModel.EntityChangeKeepsWf(env, m, ch);
    } else if u in c.models {
      CacheModel.EntityRemovalKeepsWf(env, m, ch);
    }
  }

  lemma {:induction false} ApplyAllKeepsWf(env: Env, c: Controller, es: seq<Change>)
    requires Wf(c)
    ensures Wf(ApplyAll(env, c, es))
    decreases |es|
  {
    if |es| > 0 {
      ApplyAllKeepsWf(env, c, es[..|es| - 1]);
      ApplyKeepsWf(env, ApplyAll(env, c, es[..|es| - 1]), es[|es| - 1]);
    }
  }

  // ---------------------------------------------------------------------
  // Per-kind add and remove.

  function EntityCount(c: Controller, u: string, k: CacheModel.EntityKind): nat
    requires u in c.models
  {
    |CacheModel.EntityKeys(c.models[u], k)|
  }

  /** The report key counting an entity kind. */
  function CountKey(k: CacheModel.EntityKind): string {
    match k
    case ApplicationKind => "application-count"
    case CharmKind => "charm-count"
    case MachineKind => "machine-count"
    case UnitKind => "unit-count"
    case BranchKind => "branch-count"
  }

  /** The report's count for an entity kind is the number of entities of
      that kind in the model. */
  lemma ReportCount(c: Controller, u: string, k: CacheModel.EntityKind)
    requires u in c.models
    ensures CountKey(k) in Report(c)[u] && Report(c)[u][CountKey(k)] == CacheModel.Count(EntityCount(c, u, k))
  {
    var r := CacheModel.Report(c.models[u]);
    match k
    case ApplicationKind => assert r["application-count"] == CacheModel.Count(|c.models[u].applications|);
    case CharmKind => assert r["charm-count"] == CacheModel.Count(|c.models[u].charms|);
    case MachineKind => assert r["machine-count"] == CacheModel.Count(|c.models[u].machines|);
    case UnitKind => assert r["unit-count"] == CacheModel.Count(|c.models[u].units|);
    case BranchKind => assert r["branch-count"] == CacheModel.Count(|c.models[u].branches|);
  }

  /** An entity change makes its target live, creating the model when it
      was absent; on a new controller the count for that kind becomes 1
      and every other kind stays at 0. */
  lemma ChangeCreates(env: Env, c: Controller, ch: Change)
    requires !ch.IsRemoval()
    ensures Live(Apply(env, c, ch).controller, Target(ch))
    ensures Live(Apply(env, c, ch).controller, ModelLoc(ch.ModelOf()))
    ensures c == NewController && CacheModel.KindOf(ch).Some? ==>
              forall k :: EntityCount(Apply(env, c, ch).controller, ch.ModelOf(), k) ==
                            if k == CacheModel.KindOf(ch).value then 1 else 0
  {
    if ch.ChangeModel? {
      assert Target(ch) == ModelLoc(ch.ModelOf());
    } else {
      EntityChangeLive(env, c, ch);
      if c == NewController {
        EntityChangeCounts(env, ch);
      }
    }
  }

  lemma EntityChangeLive(env: Env, c: Controller, ch: Change)
    requires !ch.IsRemoval() && !ch.ChangeModel?
    ensures Live(Apply(env, c, ch).controller, Target(ch))
  {
    var u := ch.ModelOf();
    var kind := CacheModel.KindOf(ch).value;
    var applied := CacheModel.ApplyEntityChange(env, EnsureModel(c, u), ch);
    assert Apply(env, c, ch).controller.models == c.models[u := applied.model];
    assert Target(ch) == EntityLoc(kind, u, CacheModel.KeyOf(ch));
    assert CacheModel.EntityKeys(applied.model, kind) == CacheModel.EntityKeys(EnsureModel(c, u), kind) + {CacheModel.KeyOf(ch)};
  }

  lemma EntityChangeCounts(env: Env, ch: Change)
    requires !ch.IsRemoval() && !ch.ChangeModel?
    ensures forall k :: EntityCount(Apply(env, NewController, ch).controller, ch.ModelOf(), k) ==
                          if k == CacheModel.KindOf(ch).value then 1 else 0
  {
    forall k ensures EntityCount(Apply(env, NewController, ch).controller, ch.ModelOf(), k) ==
                     if k == CacheModel.KindOf(ch).value then 1 else 0 {
      EntityChangeCount(env, ch, k);
    }
  }

  lemma EntityChangeCount(env: Env, ch: Change, k: CacheModel.EntityKind)
    requires !ch.IsRemoval() && !ch.ChangeModel?
    ensures EntityCount(Apply(env, NewController, ch).controller, ch.ModelOf(), k) ==
              if k == CacheModel.KindOf(ch).value then 1 else 0
  {
    var applied := CacheModel.ApplyEntityChange(env, CacheModel.EmptyModel, ch);
    assert Apply(env, NewController, ch).controller.models[ch.ModelOf()] == applied.model;
    CacheModel.FirstEntityKeys(env, ch, k);
  }

  /** A removal takes its target out and leaves every other location as it
      was: a location stays live iff it was live and the removal does not
      hit it or its model. Removing something absent changes nothing. */
  lemma RemovalStep(env: Env, c: Controller, e: Change, loc: Loc)
    requires e.IsRemoval()
    ensures Live(Apply(env, c, e).controller, loc) <==> Live(c, loc) && !Hits(e, loc)
    ensures !Live(c, Target(e)) ==> Apply(env, c, e).controller.models == c.models
  {
    if e.RemoveModel? {
      RemoveModelStep(env, c, e, loc);
    } else if e.ModelOf() in c.models {
      EntityRemovalStep(env, c, e, loc);
    } else {
      assert Apply(env, c, e).controller == c;
    }
  }

  lemma RemoveModelStep(env: Env, c: Controller, e: Change, loc: Loc)
    requires e.RemoveModel?
    ensures Live(Apply(env, c, e).controller, loc) <==> Live(c, loc) && !Hits(e, loc)
    ensures !Live(c, Target(e)) ==> Apply(env, c, e).controller.models == c.models
  {
    assert Target(e) == ModelLoc(e.modelUUID);
    assert Apply(env, c, e).controller.models == c.models - {e.modelUUID};
  }

  lemma EntityRemovalStep(env: Env, c: Controller, e: Change, loc: Loc)
    requires e.IsRemoval() && !e.RemoveModel? && e.ModelOf() in c.models
    ensures Live(Apply(env, c, e).controller, loc) <==> Live(c, loc) && !Hits(e, loc)
    ensures !Live(c, Target(e)) ==> Apply(env, c, e).controller.models == c.models
  {
    var u := e.ModelOf();
    var k := CacheModel.KindOf(e).value;
    var m := c.models[u];
    assert Target(e) == EntityLoc(k, u, CacheModel.KeyOf(e));
    var applied := CacheModel.ApplyEntityRemoval(env, m, e);
    var c' := Apply(env, c, e).controller;
    assert c'.models == c.models[u := applied.model];
    if !Live(c, Target(e)) {
      assert applied.model == m;
    }
    match loc
    case ModelLoc(v) =>
    case EntityLoc(k2, v, key) =>
      if v == u {
        assert CacheModel.EntityKeys(applied.model, k2) ==
               if Some(k2) == CacheModel.KindOf(e) then CacheModel.EntityKeys(m, k2) - {CacheModel.KeyOf(e)}
               else CacheModel.EntityKeys(m, k2);
      }
  }

  /** On an entity present in its model, a removal brings the count for its
      kind down by one and deregisters it. */
  lemma RemoveDecrements(env: Env, c: Controller, e: Change)
    requires e.IsRemoval() && !e.RemoveModel?
    requires Live(c, Target(e))
    ensures var c' := Apply(env, c, e).controller;
            && !Live(c', Target(e))
            && EntityCount(c', e.ModelOf(), CacheModel.KindOf(e).value) + 1 ==
               EntityCount(c, e.ModelOf(), CacheModel.KindOf(e).value)
  {
    RemovalStep(env, c, e, Target(e));
  }

  /** A model change followed by its removal leaves nothing behind. */
  lemma AddThenRemoveModel(env: Env, d: ModelChange)
    ensures var c := ApplyAll(env, NewController, [ChangeModel(d), RemoveModel(d.modelUUID)]);
            ModelUUIDs(c) == {} && Report(c) == map[] && Model(c, d.modelUUID).Err?
  {
    assert [ChangeModel(d)] == [] + [ChangeModel(d)];
    assert [ChangeModel(d), RemoveModel(d.modelUUID)] == [ChangeModel(d)] + [RemoveModel(d.modelUUID)];
    ApplyAllSnoc(env, NewController, [], ChangeModel(d));
    ApplyAllSnoc(env, NewController, [ChangeModel(d)], RemoveModel(d.modelUUID));
    var c := ApplyAll(env, NewController, [ChangeModel(d), RemoveModel(d.modelUUID)]);
    assert c.models.Keys == {};
    assert c.models == map[];
  }

  /** Removals never create anything: after a run of removals a location is
      live iff it was live before and no removal in the run hits it. */
  lemma {:induction false} RemovalsLiveness(env: Env, c: Controller, es: seq<Change>, loc: Loc)
    requires forall i :: 0 <= i < |es| ==> es[i].IsRemoval()
    ensures Live(ApplyAll(env, c, es), loc) <==> Live(c, loc) && forall e :: e in es ==> !Hits(e, loc)
    decreases |es|
  {
    if |es| > 0 {
      var init := es[..|es| - 1];
      RemovalsLiveness(env, c, init, loc);
      RemovalStep(env, ApplyAll(env, c, init), es[|es| - 1], loc);
      assert es == init + [es[|es| - 1]];
    }
  }

  // ---------------------------------------------------------------------
  // Mark and sweep.

  function MarkModels(models: map<string, CacheModel.Model>): (ms: map<string, CacheModel.Model>)
    ensures ms.Keys == models.Keys
    ensures forall u :: u in models ==> ms[u] == CacheModel.Mark(models[u])
  {
    map u | u in models :: CacheModel.Mark(models[u])
  }

  /** Mark: every resident of every model becomes stale and the controller
      is marked. */
  function Mark(c: Controller): (c': Controller)
    ensures c'.marked
    ensures forall loc :: Live(c', loc) <==> Live(c, loc)
    ensures forall loc :: Live(c, loc) ==>
              ResidentAt(c', loc) == ResidentAt(c, loc).(stale := true)
  {
    Controller(MarkModels(c.models), true)
  }

  lemma MarkKeepsWf(c: Controller)
    requires Wf(c)
    ensures Wf(Mark(c))
  {
    var c' := Mark(c);
    forall u | u in c'.models
      ensures CacheModel.RemovalsWf(u, c'.models[u])
    {
      CacheModel.MarkKeepsWf(u, c.models[u]);
    }
  }

  /** A stale resident that stored a removal message: sweep's target. */
  predicate Swept(c: Controller, loc: Loc) {
    Live(c, loc) && ResidentAt(c, loc).stale && ResidentAt(c, loc).removalMessage.Some?
  }

  function StaleRemovalOf(r: Resident): set<Change> {
    if r.stale && r.removalMessage.Some? then {r.removalMessage.value} else {}
  }

  /** The removal messages of the stale entities of one kind. */
  function KindStaleRemovals(m: CacheModel.Model, k: CacheModel.EntityKind): set<Change> {
    set n | n in CacheModel.EntityKeys(m, k) && CacheModel.EntityResident(m, k, n).stale &&
            CacheModel.EntityResident(m, k, n).removalMessage.Some? ::
      CacheModel.EntityResident(m, k, n).removalMessage.value
  }

  function ModelStaleRemovals(m: CacheModel.Model): set<Change> {
    StaleRemovalOf(m.resident)
    + KindStaleRemovals(m, CacheModel.ApplicationKind) + KindStaleRemovals(m, CacheModel.CharmKind)
    + KindStaleRemovals(m, CacheModel.MachineKind) + KindStaleRemovals(m, CacheModel.UnitKind)
    + KindStaleRemovals(m, CacheModel.BranchKind)
  }

  /** The removal messages sweep synthesises: those of every stale resident. */
  function StaleRemovals(c: Controller): set<Change> {
    set u, e | u in c.models && e in ModelStaleRemovals(c.models[u]) :: e
  }

  lemma InModelStaleRemovals(m: CacheModel.Model, k: CacheModel.EntityKind, e: Change)
    requires e in KindStaleRemovals(m, k)
    ensures e in ModelStaleRemovals(m)
  {
  }

  /** A stale message of one kind names the entity storing it. */
  lemma KindStaleSound(c: Controller, u: string, k: CacheModel.EntityKind, e: Change)
    requires u in c.models && CacheModel.RemovalsWf(u, c.models[u])
    requires e in KindStaleRemovals(c.models[u], k)
    ensures Swept(c, Target(e)) && ResidentAt(c, Target(e)).removalMessage == Some(e)
  {
    var m := c.models[u];
    var n :| n in CacheModel.EntityKeys(m, k) && CacheModel.EntityResident(m, k, n).stale &&
             CacheModel.EntityResident(m, k, n).removalMessage == Some(e);
    CacheModel.RemovalsWfAt(u, m, k, n);
    assert Target(e) == EntityLoc(k, u, n);
  }

  /** A model's own stale message is the removal of that model. */
  lemma ModelStaleSound(c: Controller, u: string, e: Change)
    requires u in c.models && CacheModel.RemovalIs(c.models[u].resident, RemoveModel(u))
    requires e in StaleRemovalOf(c.models[u].resident)
    ensures Swept(c, Target(e)) && ResidentAt(c, Target(e)).removalMessage == Some(e)
  {
    assert e == RemoveModel(u);
  }

  /** Every message in the sweep set was stored by a swept resident at the
      message's own target. */
  lemma StaleRemovalsSound(c: Controller, e: Change)
    requires Wf(c)
    requires e in StaleRemovals(c)
    ensures Swept(c, Target(e)) && ResidentAt(c, Target(e)).removalMessage == Some(e)
  {
    var u :| u in c.models && e in ModelStaleRemovals(c.models[u]);
    var m := c.models[u];
    assert CacheModel.RemovalsWf(u, m);
    if e in StaleRemovalOf(m.resident) {
      ModelStaleSound(c, u, e);
    } else if e in KindStaleRemovals(m, CacheModel.ApplicationKind) {
      KindStaleSound(c, u, CacheModel.ApplicationKind, e);
    } else if e in KindStaleRemovals(m, CacheModel.CharmKind) {
      KindStaleSound(c, u, CacheModel.CharmKind, e);
    } else if e in KindStaleRemovals(m, CacheModel.MachineKind) {
      KindStaleSound(c, u, CacheModel.MachineKind, e);
    } else if e in KindStaleRemovals(m, CacheModel.UnitKind) {
      KindStaleSound(c, u, CacheModel.UnitKind, e);
    } else {
      KindStaleSound(c, u, CacheModel.BranchKind, e);
    }
  }

  /** Every swept resident's message is in the sweep set. */
  lemma StaleRemovalsComplete(c: Controller, loc: Loc)
    requires Swept(c, loc)
    ensures ResidentAt(c, loc).removalMessage.value in StaleRemovals(c)
  {
    var e := ResidentAt(c, loc).removalMessage.value;
    var m := c.models[loc.uuid];
    match loc
    case ModelLoc(_) =>
      assert e in StaleRemovalOf(m.resident);
      assert e in ModelStaleRemovals(m);
    case EntityLoc(k, _, n) =>
      assert e in KindStaleRemovals(m, k);
      InModelStaleRemovals(m, k, e);
  }

  /** A removal message is in the sweep set iff a swept resident stored it. */
  lemma StaleRemovalsExact(c: Controller, e: Change)
    requires Wf(c)
    ensures e in StaleRemovals(c) <==> Swept(c, Target(e)) && ResidentAt(c, Target(e)).removalMessage == Some(e)
  {
    if e in StaleRemovals(c) {
      StaleRemovalsSound(c, e);
    }
    if Swept(c, Target(e)) && ResidentAt(c, Target(e)).removalMessage == Some(e) {
      StaleRemovalsComplete(c, Target(e));
    }
  }

  /** Removal order: children before parents. */
  function Rank(e: Change): nat {
    match e
    case RemoveBranch(_, _) => 0
    case RemoveUnit(_, _) => 1
    case RemoveMachine(_, _) => 2
    case RemoveApplication(_, _) => 3
    case RemoveCharm(_, _) => 4
    case RemoveModel(_) => 5
    case _ => 6
  }

  predicate RankOrdered(es: seq<Change>) {
    forall i, j :: 0 <= i < j < |es| ==> Rank(es[i]) <= Rank(es[j])
  }

  predicate Distinct(es: seq<Change>) {
    forall i, j :: 0 <= i < j < |es| ==> es[i] != es[j]
  }

  /** The events of a set, each once, in rank order. */
  method OrderByRank(pending0: set<Change>) returns (events: seq<Change>)
    ensures forall e :: e in events <==> e in pending0
    ensures Distinct(events) && RankOrdered(events)
  {
    var pending := pending0;
    events := [];
    var r := 0;
    while r <= 6
      invariant 0 <= r <= 7
      invariant forall e :: e in pending0 <==> e in pending || e in events
      invariant forall e :: e in pending ==> e !in events && Rank(e) >= r
      invariant forall i :: 0 <= i < |events| ==> Rank(events[i]) < r
      invariant Distinct(events) && RankOrdered(events)
    {
      while exists e :: e in pending && Rank(e) == r
        invariant forall e :: e in pending0 <==> e in pending || e in events
        invariant forall e :: e in pending ==> e !in events && Rank(e) >= r
        invariant forall i :: 0 <= i < |events| ==> Rank(events[i]) <= r
        invariant Distinct(events) && RankOrdered(events)
        decreases |pending|
      {
        var e :| e in pending && Rank(e) == r;
        events := events + [e];
        pending := pending - {e};
      }
      r := r + 1;
    }
  }

  /** Sweep: the removal message of every stale resident, each once, units
      before machines before applications before charms before models,
      applied in that order; then the controller is unmarked. */
  method Sweep(env: Env, c: Controller) returns (c': Controller, events: seq<Change>)
    ensures forall e :: e in events <==> e in StaleRemovals(c)
    ensures Distinct(events) && RankOrdered(events)
    ensures c' == ApplyAll(env, c, events).(marked := false)
  {
    events := OrderByRank(StaleRemovals(c));
    c' := ApplyAll(env, c, events).(marked := false);
  }

  /** What sweep leaves: a location survives iff it was live, is not
      swept itself, and (for an entity) its model is not swept. */
  lemma SweepOutcome(env: Env, c: Controller, events: seq<Change>, loc: Loc)
    requires Wf(c)
    requires forall e :: e in events <==> e in StaleRemovals(c)
    ensures Live(ApplyAll(env, c, events), loc) <==>
              Live(c, loc) && !Swept(c, loc) && !Swept(c, ModelLoc(loc.uuid))
  {
    StaleRemovalsAreRemovals(c, events);
    RemovalsLiveness(env, c, events, loc);
    if Live(c, loc) {
      if Swept(c, loc) || Swept(c, ModelLoc(loc.uuid)) {
        SweptIsHit(c, events, loc);
      } else {
        UnsweptIsMissed(c, events, loc);
      }
    }
  }

  lemma StaleRemovalsAreRemovals(c: Controller, events: seq<Change>)
    requires Wf(c)
    requires forall e :: e in events <==> e in StaleRemovals(c)
    ensures forall i :: 0 <= i < |events| ==> events[i].IsRemoval()
  {
    forall i | 0 <= i < |events|
      ensures events[i].IsRemoval()
    {
      StaleRemovalsExact(c, events[i]);
      WfTarget(c, Target(events[i]));
    }
  }

  /** A swept entity, or an entity of a swept model, is hit by a sweep
      event. */
  lemma SweptIsHit(c: Controller, events: seq<Change>, loc: Loc)
    requires Wf(c)
    requires forall e :: e in events <==> e in StaleRemovals(c)
    requires Swept(c, loc) || Swept(c, ModelLoc(loc.uuid))
    ensures exists e :: e in events && Hits(e, loc)
  {
    var at := if Swept(c, loc) then loc else ModelLoc(loc.uuid);
    var e := ResidentAt(c, at).removalMessage.value;
    WfTarget(c, at);
    StaleRemovalsExact(c, e);
    assert Hits(e, loc);
  }

  /** No sweep event hits an entity that is neither swept itself nor in a
      swept model. */
  lemma UnsweptIsMissed(c: Controller, events: seq<Change>, loc: Loc)
    requires Wf(c)
    requires forall e :: e in events <==> e in StaleRemovals(c)
    requires !Swept(c, loc) && !Swept(c, ModelLoc(loc.uuid))
    ensures forall e :: e in events ==> !Hits(e, loc)
  {
    forall e | e in events
      ensures !Hits(e, loc)
    {
      StaleRemovalsExact(c, e);
    }
  }

  /** Mark with no changes before the sweep: every resident that stored a
      removal message is swept, so when every model has received its
      ModelChange nothing at all remains. */
  lemma MarkThenSweepRemovesAll(env: Env, c: Controller, events: seq<Change>)
    requires Wf(c)
    requires forall u :: u in c.models ==> c.models[u].resident.removalMessage.Some?
    requires forall e :: e in events <==> e in StaleRemovals(Mark(c))
    ensures ApplyAll(env, Mark(c), events).models == map[]
  {
    MarkKeepsWf(c);
    var c' := ApplyAll(env, Mark(c), events);
    if u :| u in c'.models {
      SweepOutcome(env, Mark(c), events, ModelLoc(u));
      assert false;
    }
  }

  /** A change refreshes its target, leaves every other live resident as
      it was, and anything it creates (the target, or the model created on
      demand around it) starts out fresh. */
  lemma ChangeStep(env: Env, c: Controller, e: Change)
    requires !e.IsRemoval()
    ensures var c' := Apply(env, c, e).controller;
            Live(c', Target(e)) && !ResidentAt(c', Target(e)).stale
    ensures var c' := Apply(env, c, e).controller;
            forall loc :: Live(c, loc) && loc != Target(e) ==> Live(c', loc) && ResidentAt(c', loc) == ResidentAt(c, loc)
    ensures var c' := Apply(env, c, e).controller;
            forall loc :: Live(c', loc) && !Live(c, loc) ==> !ResidentAt(c', loc).stale
  {
    if e.ChangeModel? {
      ModelChangeStep(env, c, e);
    } else {
      EntityChangeStep(env, c, e);
    }
  }

  lemma ModelChangeStep(env: Env, c: Controller, e: Change)
    requires e.ChangeModel?
    ensures var c' := Apply(env, c, e).controller;
            Live(c', Target(e)) && !ResidentAt(c', Target(e)).stale
    ensures var c' := Apply(env, c, e).controller;
            forall loc :: Live(c, loc) && loc != Target(e) ==> Live(c', loc) && ResidentAt(c', loc) == ResidentAt(c, loc)
    ensures var c' := Apply(env, c, e).controller;
            forall loc :: Live(c', loc) && !Live(c, loc) ==> !ResidentAt(c', loc).stale
  {
    var c' := Apply(env, c, e).controller;
    assert Target(e) == ModelLoc(e.ModelOf());
    forall loc | Live(c, loc) && loc != Target(e)
      ensures Live(c', loc) && ResidentAt(c', loc) == ResidentAt(c, loc)
    {
      ModelChangeKeeps(env, c, e, loc);
    }
    forall loc | Live(c', loc) && !Live(c, loc)
      ensures !ResidentAt(c', loc).stale
    {
      ModelChangeFresh(env, c, e, loc);
    }
  }

  lemma ModelChangeKeeps(env: Env, c: Controller, e: Change, loc: Loc)
    requires e.ChangeModel?
    requires Live(c, loc) && loc != Target(e)
    ensures var c' := Apply(env, c, e).controller;
            Live(c', loc) && ResidentAt(c', loc) == ResidentAt(c, loc)
  {
    var u := e.ModelOf();
    var m' := CacheModel.SetDetails(env, EnsureModel(c, u), e.model).model;
    assert Apply(env, c, e).controller.models == c.models[u := m'];
    if loc.EntityLoc? && loc.uuid == u {
      assert CacheModel.EntityKeys(m', loc.kind) == CacheModel.EntityKeys(c.models[u], loc.kind);
    }
  }

  lemma ModelChangeFresh(env: Env, c: Controller, e: Change, loc: Loc)
    requires e.ChangeModel?
    requires Live(Apply(env, c, e).controller, loc) && !Live(c, loc)
    ensures !ResidentAt(Apply(env, c, e).controller, loc).stale
  {
    var u := e.ModelOf();
    var m' := CacheModel.SetDetails(env, EnsureModel(c, u), e.model).model;
    assert Apply(env, c, e).controller.models == c.models[u := m'];
  }

  lemma EntityChangeStep(env: Env, c: Controller, e: Change)
    requires !e.IsRemoval() && !e.ChangeModel?
    ensures var c' := Apply(env, c, e).controller;
            Live(c', Target(e)) && !ResidentAt(c', Target(e)).stale
    ensures var c' := Apply(env, c, e).controller;
            forall loc :: Live(c, loc) && loc != Target(e) ==> Live(c', loc) && ResidentAt(c', loc) == ResidentAt(c, loc)
    ensures var c' := Apply(env, c, e).controller;
            forall loc :: Live(c', loc) && !Live(c, loc) ==> !ResidentAt(c', loc).stale
  {
    var c' := Apply(env, c, e).controller;
    CacheModel.EntityChangeRefreshes(env, EnsureModel(c, e.ModelOf()), e);
    forall loc | Live(c, loc) && loc != Target(e)
      ensures Live(c', loc) && ResidentAt(c', loc) == ResidentAt(c, loc)
    {
      EntityChangeKeeps(env, c, e, loc);
    }
    forall loc | Live(c', loc) && !Live(c, loc)
      ensures !ResidentAt(c', loc).stale
    {
      EntityChangeFresh(env, c, e, loc);
    }
  }

  lemma EntityChangeKeeps(env: Env, c: Controller, e: Change, loc: Loc)
    requires !e.IsRemoval() && !e.ChangeModel?
    requires Live(c, loc) && loc != Target(e)
    ensures var c' := Apply(env, c, e).controller;
            Live(c', loc) && ResidentAt(c', loc) == ResidentAt(c, loc)
  {
    var u := e.ModelOf();
    var c' := Apply(env, c, e).controller;
    assert c'.models == c.models[u := CacheModel.ApplyEntityChange(env, EnsureModel(c, u), e).model];
    if loc.EntityLoc? && loc.uuid == u {
      CacheModel.EntityChangeKeepsOther(env, c.models[u], e, loc.kind, loc.key);
    }
  }

  lemma EntityChangeFresh(env: Env, c: Controller, e: Change, loc: Loc)
    requires !e.IsRemoval() && !e.ChangeModel?
    requires Live(Apply(env, c, e).controller, loc) && !Live(c, loc)
    ensures !ResidentAt(Apply(env, c, e).controller, loc).stale
  {
    var u := e.ModelOf();
    var m := EnsureModel(c, u);
    var m' := CacheModel.ApplyEntityChange(env, m, e).model;
    assert Apply(env, c, e).controller == WithModel(c, u, m');
    CacheModel.EntityChangeRefreshes(env, m, e);
    if loc != Target(e) {
      assert u !in c.models;
      forall k
        ensures CacheModel.EntityKeys(m', k) == if Some(k) == CacheModel.KindOf(e) then {CacheModel.KeyOf(e)} else {}
      {
        CacheModel.FirstEntityKeys(env, e, k);
      }
    }
  }

  /** Mark followed by a run of changes: everything live before Mark is
      still live, and a live resident is stale exactly when it was live
      before Mark and no change in the run addressed it. */
  lemma {:induction false} MarkThenChanges(env: Env, c: Controller, es: seq<Change>)
    requires forall i :: 0 <= i < |es| ==> !es[i].IsRemoval()
    ensures var d := ApplyAll(env, Mark(c), es);
            forall loc :: Live(c, loc) ==> Live(d, loc)
    ensures var d := ApplyAll(env, Mark(c), es);
            forall loc :: Live(d, loc) ==>
              (ResidentAt(d, loc).stale <==> Live(c, loc) && forall e :: e in es ==> Target(e) != loc)
    decreases |es|
  {
    if |es| > 0 {
      var init := es[..|es| - 1];
      var last := es[|es| - 1];
      assert es == init + [last];
      MarkThenChanges(env, c, init);
      var d0 := ApplyAll(env, Mark(c), init);
      var d := ApplyAll(env, Mark(c), es);
      assert d == Apply(env, d0, last).controller;
      ChangeStep(env, d0, last);
      forall loc | Live(d, loc)
        ensures ResidentAt(d, loc).stale <==> Live(c, loc) && forall e :: e in es ==> Target(e) != loc
      {
        if loc == Target(last) {
          assert last in es;
        } else if Live(d0, loc) {
          assert forall e :: e in es ==> e in init || e == last;
        }
      }
    }
  }

  /** With no live resident stale, sweep has no events and changes nothing. */
  lemma UnstaleSweepsNothing(env: Env, c: Controller, events: seq<Change>)
    requires Wf(c)
    requires forall loc :: Live(c, loc) ==> !ResidentAt(c, loc).stale
    requires forall e :: e in events <==> e in StaleRemovals(c)
    ensures events == [] && ApplyAll(env, c, events) == c
  {
    if |events| > 0 {
      StaleRemovalsExact(c, events[0]);
      assert false;
    }
  }

  /** Mark, then a change addressing every resident live at Mark: sweep
      has no events and removes nothing. */
  lemma RefreshedSweepRemovesNothing(env: Env, c: Controller, es: seq<Change>, events: seq<Change>)
    requires Wf(c)
    requires forall i :: 0 <= i < |es| ==> !es[i].IsRemoval()
    requires forall loc :: Live(c, loc) ==> exists e :: e in es && Target(e) == loc
    requires forall e :: e in events <==> e in StaleRemovals(ApplyAll(env, Mark(c), es))
    ensures var d := ApplyAll(env, Mark(c), es);
            events == [] && ApplyAll(env, d, events) == d
  {
    var d := ApplyAll(env, Mark(c), es);
    MarkKeepsWf(c);
    ApplyAllKeepsWf(env, Mark(c), es);
    MarkThenChanges(env, c, es);
    forall loc | Live(d, loc)
      ensures !ResidentAt(d, loc).stale
    {
      if Live(c, loc) {
        var e :| e in es && Target(e) == loc;
      }
    }
    UnstaleSweepsNothing(env, d, events);
  }
}
