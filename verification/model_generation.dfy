/** The model-generation (branch) API facade
    (apiserver/facades/client/modelgeneration/modelgeneration.go): who may
    use it, and how each call shapes its results from what the model and
    state report. The model, its branches and state are collaborators
    whose answers are function fields; branch-name validation and tag
    parsing belong to other packages and are collaborators too. */
module ModelGeneration {
  import opened Errors
  import StringOrder
  import Decimal

  /** common.ErrPerm. */
  const ErrPerm := Error(Perm, "permission denied")

  /** The authorizer's answers: whether the caller is a client, its user,
      and its controller-superuser and model-admin permission lookups. */
  datatype Authorizer = Authorizer(
    authClient: bool,
    userName: string,
    superuser: Result<bool>,
    modelAdmin: Result<bool>)

  datatype API = API(authorizer: Authorizer, isControllerAdmin: bool)

  /** NewModelGenerationAPI: only clients may use the facade; whether the
      caller is a controller admin is looked up once. */
  function NewModelGenerationAPI(auth: Authorizer): (r: Result<API>)
    ensures !auth.authClient ==> r == Err(ErrPerm)
    ensures auth.authClient && auth.superuser.Err? ==> r == Err(auth.superuser.error)
    ensures r.Ok? <==> auth.authClient && auth.superuser.Ok?
    ensures r.Ok? ==> r.value.isControllerAdmin == auth.superuser.value && r.value.authorizer == auth
  {
    if !auth.authClient then Err(ErrPerm)
    else
      match auth.superuser
      case Err(err) => Err(err)
      case Ok(isAdmin) => Ok(API(auth, isAdmin))
  }

  /** hasAdminAccess: a permission that is not found means no access. */
  function HasAdminAccess(api: API): (r: Result<bool>)
    ensures api.authorizer.modelAdmin.Ok? ==> r == api.authorizer.modelAdmin
    ensures api.authorizer.modelAdmin.Err? && api.authorizer.modelAdmin.error.kind == NotFound ==> r == Ok(false)
    ensures api.authorizer.modelAdmin.Err? && api.authorizer.modelAdmin.error.kind != NotFound ==>
              r == api.authorizer.modelAdmin
  {
    match api.authorizer.modelAdmin
    case Err(err) => if err.kind == NotFound then Ok(false) else Err(err)
    case Ok(canWrite) => Ok(canWrite)
  }

  /** The caller may change branches: it is a model admin or a controller
      admin. */
  predicate MayWrite(api: API) {
    (HasAdminAccess(api).Ok? && HasAdminAccess(api).value) || (HasAdminAccess(api).Ok? && api.isControllerAdmin)
  }

  /** The permission gate every branch operation opens with. */
  function Gate(api: API): (r: Option<Error>)
    ensures r.None? <==> MayWrite(api)
    ensures HasAdminAccess(api).Err? ==> r == Some(HasAdminAccess(api).error)
    ensures HasAdminAccess(api).Ok? && !MayWrite(api) ==> r == Some(ErrPerm)
  {
    match HasAdminAccess(api)
    case Err(err) => Some(err)
    case Ok(isModelAdmin) => if !isModelAdmin && !api.isControllerAdmin then Some(ErrPerm) else None
  }

  /** A parsed tag, by kind; the Go type name of other kinds is kept for the
      error text. */
  datatype TagKind = ApplicationTag | UnitTag | OtherTag(goType: string)

  datatype Tag = Tag(kind: TagKind, id: string)

  type Settings = map<string, string>

  /** A branch as the facade reads it: its identity, the units each
      application has tracking it (with the order that map is walked in),
      and its operations. */
  datatype Generation = Generation(
    branchName: string,
    created: int,
    createdBy: string,
    assignedUnits: map<string, seq<string>>,
    appOrder: seq<string>,
    assignAllUnits: string -> Option<Error>,
    assignUnit: string -> Option<Error>,
    commit: string -> Result<int>,
    configChanges: (string, Settings) -> Settings)

  predicate GenerationWf(g: Generation) {
    Enumerates(g.appOrder, g.assignedUnits.Keys)
  }

  /** What state says about an application. */
  datatype AppInfo = AppInfo(unitNames: Result<seq<string>>, defaults: Result<Settings>)

  /** The model and state the facade consults. */
  datatype Backend = Backend(
    validateBranchName: string -> Option<Error>,
    parseTag: string -> Result<Tag>,
    addBranch: (string, string) -> Option<Error>,
    branch: string -> Result<Generation>,
    branches: Result<seq<Generation>>,
    application: string -> Result<AppInfo>)

  // ---------------------------------------------------------------------
  // AddBranch

  /** The call result, and the model.AddBranch call made, if any. */
  datatype AddBranchOutcome = AddBranchOutcome(result: Result<Option<Error>>, added: Option<(string, string)>)

  /** AddBranch: an invalid name is reported in the result and nothing is
      added; otherwise the model's answer is the result. */
  function AddBranch(api: API, be: Backend, name: string): (o: AddBranchOutcome)
    ensures Gate(api).Some? ==> o == AddBranchOutcome(Err(Gate(api).value), None)
    ensures Gate(api).None? && be.validateBranchName(name).Some? ==>
              o == AddBranchOutcome(Ok(be.validateBranchName(name)), None)
    ensures o.added.Some? <==> Gate(api).None? && be.validateBranchName(name).None?
    ensures o.added.Some? ==> o.added.value == (name, api.authorizer.userName) &&
                              o.result == Ok(be.addBranch(name, api.authorizer.userName))
  {
    var denied := Gate(api);
    if denied.Some? then AddBranchOutcome(Err(denied.value), None)
    else
      var invalid := be.validateBranchName(name);
      if invalid.Some? then AddBranchOutcome(Ok(invalid), None)
      else AddBranchOutcome(Ok(be.addBranch(name, api.authorizer.userName)), Some((name, api.authorizer.userName)))
  }

  // ---------------------------------------------------------------------
  // TrackBranch

  /** The outcome for one entity: applications assign all their units,
      units assign themselves, anything else is an error. */
  function TrackOne(be: Backend, g: Generation, entity: string): (r: Option<Error>)
    ensures be.parseTag(entity).Err? ==> r == Some(be.parseTag(entity).error)
    ensures be.parseTag(entity).Ok? && be.parseTag(entity).value.kind == ApplicationTag ==>
              r == g.assignAllUnits(be.parseTag(entity).value.id)
    ensures be.parseTag(entity).Ok? && be.parseTag(entity).value.kind == UnitTag ==>
              r == g.assignUnit(be.parseTag(entity).value.id)
    ensures be.parseTag(entity).Ok? && be.parseTag(entity).value.kind.OtherTag? ==>
              r == Some(Error(Other, "expected names.UnitTag or names.ApplicationTag, got " +
                                     be.parseTag(entity).value.kind.goType))
  {
    match be.parseTag(entity)
    case Err(err) => Some(err)
    case Ok(tag) =>
      match tag.kind
      case ApplicationTag => g.assignAllUnits(tag.id)
      case UnitTag => g.assignUnit(tag.id)
      case OtherTag(goType) => Some(Error(Other, "expected names.UnitTag or names.ApplicationTag, got " + goType))
  }

  /** TrackBranch: a missing branch fails the call; otherwise there is one
      result per entity, in order, and a bad entity does not stop the
      others. */
  function TrackBranch(api: API, be: Backend, name: string, entities: seq<string>): (r: Result<seq<Option<Error>>>)
    ensures Gate(api).Some? ==> r == Err(Gate(api).value)
    ensures Gate(api).None? && be.branch(name).Err? ==> r == Err(be.branch(name).error)
    ensures r.Ok? <==> Gate(api).None? && be.branch(name).Ok?
    ensures r.Ok? ==> |r.value| == |entities| &&
                      forall i :: 0 <= i < |entities| ==> r.value[i] == TrackOne(be, be.branch(name).value, entities[i])
  {
    var denied := Gate(api);
    if denied.Some? then Err(denied.value)
    else
      match be.branch(name)
      case Err(err) => Err(err)
      case Ok(g) => Ok(seq(|entities|, i requires 0 <= i < |entities| => TrackOne(be, g, entities[i])))
  }

  // ---------------------------------------------------------------------
  // CommitBranch

  /** params.IntResult. */
  datatype IntResult = IntResult(result: int, error: Option<Error>)

  /** CommitBranch: a missing branch and a failed commit are reported in
      the result; a commit gives the new generation id. */
  function CommitBranch(api: API, be: Backend, name: string): (r: Result<IntResult>)
    ensures Gate(api).Some? ==> r == Err(Gate(api).value)
    ensures r.Ok? <==> Gate(api).None?
    ensures Gate(api).None? && be.branch(name).Err? ==> r == Ok(IntResult(0, Some(be.branch(name).error)))
    ensures Gate(api).None? && be.branch(name).Ok? ==>
              var committed := be.branch(name).value.commit(api.authorizer.userName);
              r == Ok(if committed.Ok? then IntResult(committed.value, None) else IntResult(0, Some(committed.error)))
  {
    var denied := Gate(api);
    if denied.Some? then Err(denied.value)
    else
      match be.branch(name)
      case Err(err) => Ok(IntResult(0, Some(err)))
      case Ok(g) =>
        match g.commit(api.authorizer.userName)
        case Err(err) => Ok(IntResult(0, Some(err)))
        case Ok(genId) => Ok(IntResult(genId, None))
  }

  // ---------------------------------------------------------------------
  // BranchInfo

  /** params.GenerationApplication. */
  datatype GenerationApplication = GenerationApplication(
    applicationName: string,
    unitProgress: string,
    configChanges: Settings,
    unitsTracking: seq<string>,
    unitsPending: seq<string>)

  /** params.Generation. */
  datatype GenerationInfo = GenerationInfo(
    branchName: string,
    created: int,
    createdBy: string,
    applications: seq<GenerationApplication>)

  /** The names of allUnits that are not tracking. */
  function Pending(allUnits: seq<string>, tracking: seq<string>): (p: seq<string>)
    ensures forall u :: u in p <==> u in allUnits && u !in tracking
    decreases |allUnits|
  {
    if |allUnits| == 0 then []
    else (if allUnits[0] in tracking then [] else [allUnits[0]]) + Pending(allUnits[1..], tracking)
  }

  /** The entry for one application of a branch. */
  function AppEntry(be: Backend, g: Generation, appName: string, detailed: bool): (r: Result<GenerationApplication>)
    requires appName in g.assignedUnits
    ensures r.Ok? <==> be.application(appName).Ok? && be.application(appName).value.unitNames.Ok? &&
                       be.application(appName).value.defaults.Ok?
    ensures r.Ok? ==>
              var tracking := g.assignedUnits[appName];
              var allUnits := be.application(appName).value.unitNames.value;
              && r.value.applicationName == appName
              && r.value.unitProgress == Decimal.Progress(|tracking|, |allUnits|)
              && r.value.configChanges == g.configChanges(appName, be.application(appName).value.defaults.value)
              && StringOrder.Sorted(r.value.unitsTracking) && StringOrder.Sorted(r.value.unitsPending)
              && (detailed ==> (forall u :: u in r.value.unitsTracking <==> u in tracking))
              && (detailed ==> (forall u :: u in r.value.unitsPending <==> u in allUnits && u !in tracking))
              && (!detailed ==> r.value.unitsTracking == [] && r.value.unitsPending == [])
  {
    match be.application(appName)
    case Err(err) => Err(err)
    case Ok(app) =>
      match app.unitNames
      case Err(err) => Err(err)
      case Ok(allUnits) =>
        var tracking := g.assignedUnits[appName];
        var progress := Decimal.Progress(|tracking|, |allUnits|);
        match app.defaults
        case Err(err) => Err(err)
        case Ok(defaults) =>
          var changes := g.configChanges(appName, defaults);
          if detailed then
            Ok(GenerationApplication(appName, progress, changes,
                                     StringOrder.SortedDistinct(tracking),
                                     StringOrder.SortedDistinct(Pending(allUnits, tracking))))
          else Ok(GenerationApplication(appName, progress, changes, [], []))
  }

  /** The entries for the applications of `order`, stopping at the first
      failure. */
  function AppEntries(be: Backend, g: Generation, order: seq<string>, detailed: bool)
    : (r: Result<seq<GenerationApplication>>)
    requires forall a :: a in order ==> a in g.assignedUnits
    ensures r.Ok? <==> forall i :: 0 <= i < |order| ==> AppEntry(be, g, order[i], detailed).Ok?
    ensures r.Ok? ==> |r.value| == |order| &&
                      forall i :: 0 <= i < |order| ==> r.value[i] == AppEntry(be, g, order[i], detailed).value
    ensures r.Err? ==> exists i :: 0 <= i < |order| && AppEntry(be, g, order[i], detailed).Err? &&
                                   r == Err(AppEntry(be, g, order[i], detailed).error) &&
                                   forall j :: 0 <= j < i ==> AppEntry(be, g, order[j], detailed).Ok?
  {
    var entries := EntriesOf(be, g, order, detailed);
    var r := AllOk(entries);
    if r.Err? then
      var i :| 0 <= i < |entries| && entries[i] == Err(r.error) && forall j :: 0 <= j < i ==> entries[j].Ok?;
      assert AppEntry(be, g, order[i], detailed) == Err(r.error);
      r
    else r
  }

  /** The entry outcome of each application of `order`, in order. */
  function EntriesOf(be: Backend, g: Generation, order: seq<string>, detailed: bool)
    : (entries: seq<Result<GenerationApplication>>)
    requires forall a :: a in order ==> a in g.assignedUnits
    ensures |entries| == |order| && forall i :: 0 <= i < |order| ==> entries[i] == AppEntry(be, g, order[i], detailed)
  {
    seq(|order|, i requires 0 <= i < |order| => AppEntry(be, g, order[i], detailed))
  }

  /** Walking the applications succeeds exactly when every application's
      entry can be built. */
  lemma AppEntriesOkIff(be: Backend, g: Generation, detailed: bool)
    requires GenerationWf(g)
    ensures AppEntries(be, g, g.appOrder, detailed).Ok? <==>
              forall a :: a in g.assignedUnits ==> AppEntry(be, g, a, detailed).Ok?
  {
    if AppEntries(be, g, g.appOrder, detailed).Ok? {
      forall a | a in g.assignedUnits ensures AppEntry(be, g, a, detailed).Ok? {
        var i :| 0 <= i < |g.appOrder| && g.appOrder[i] == a;
      }
    }
  }

  /** oneBranchInfo: the branch's identity and one entry per application
      with tracking units; OneBranchInfoShape states its outcome. */
  function OneBranchInfo(be: Backend, g: Generation, detailed: bool): Result<GenerationInfo>
    requires GenerationWf(g)
  {
    match AppEntries(be, g, g.appOrder, detailed)
    case Err(err) => Err(err)
    case Ok(apps) => Ok(GenerationInfo(g.branchName, g.created, g.createdBy, apps))
  }

  /** The info carries the branch's identity and, in walk order, one entry
      per application; it can be built iff every application's entry can. */
  lemma OneBranchInfoShape(be: Backend, g: Generation, detailed: bool)
    requires GenerationWf(g)
    ensures var r := OneBranchInfo(be, g, detailed);
            && (r.Ok? ==> r.value.branchName == g.branchName && r.value.created == g.created &&
                          r.value.createdBy == g.createdBy)
            && (r.Ok? ==> |r.value.applications| == |g.assignedUnits| == |g.appOrder| &&
                          forall i :: 0 <= i < |g.appOrder| ==>
                            AppEntry(be, g, g.appOrder[i], detailed).Ok? &&
                            r.value.applications[i] == AppEntry(be, g, g.appOrder[i], detailed).value &&
                            r.value.applications[i].applicationName == g.appOrder[i])
            && (r.Ok? <==> forall a :: a in g.assignedUnits ==> AppEntry(be, g, a, detailed).Ok?)
  {
    EnumeratesSize(g.appOrder, g.assignedUnits.Keys);
    AppEntriesOkIff(be, g, detailed);
  }

  /** params.GenerationResults. */
  datatype GenerationResults = GenerationResults(generations: seq<GenerationInfo>, error: Option<Error>)

  /** The branches named, in order, or the first lookup failure. */
  function NamedBranches(be: Backend, names: seq<string>): (r: Result<seq<Generation>>)
    ensures r.Ok? <==> forall i :: 0 <= i < |names| ==> be.branch(names[i]).Ok?
    ensures r.Ok? ==> |r.value| == |names| && forall i :: 0 <= i < |names| ==> r.value[i] == be.branch(names[i]).value
    ensures r.Err? ==> exists i :: 0 <= i < |names| && be.branch(names[i]).Err? && r == Err(be.branch(names[i]).error) &&
                                   forall j :: 0 <= j < i ==> be.branch(names[j]).Ok?
    decreases |names|
  {
    if |names| == 0 then Ok([])
    else
      match be.branch(names[0])
      case Err(err) => Err(err)
      case Ok(g) =>
        var rest := NamedBranches(be, names[1..]);
        assert forall i :: 1 <= i < |names| ==> names[i] == names[1..][i - 1];
        if rest.Err? then
          var i :| 0 <= i < |names[1..]| && be.branch(names[1..][i]).Err? && rest == Err(be.branch(names[1..][i]).error) &&
                   forall j :: 0 <= j < i ==> be.branch(names[1..][j]).Ok?;
          assert rest == Err(be.branch(names[i + 1]).error);
          Err(rest.error)
        else Ok([g] + rest.value)
  }

  /** The infos of the branches, in order, or the first failure;
      BranchInfosOutcome states what that means branch by branch. */
  function BranchInfos(be: Backend, gs: seq<Generation>, detailed: bool): (r: Result<seq<GenerationInfo>>)
    requires forall i :: 0 <= i < |gs| ==> GenerationWf(gs[i])
    ensures r == AllOk(InfosOf(be, gs, detailed))
  {
    AllOk(InfosOf(be, gs, detailed))
  }

  /** The infos are reported iff every branch's info can be built, each in
      its branch's position; otherwise the first failing branch's error. */
  lemma BranchInfosOutcome(be: Backend, gs: seq<Generation>, detailed: bool)
    requires forall i :: 0 <= i < |gs| ==> GenerationWf(gs[i])
    ensures var r := BranchInfos(be, gs, detailed);
            && (r.Ok? <==> forall i :: 0 <= i < |gs| ==> OneBranchInfo(be, gs[i], detailed).Ok?)
            && (r.Ok? ==> |r.value| == |gs| &&
                          forall i :: 0 <= i < |gs| ==> r.value[i] == OneBranchInfo(be, gs[i], detailed).value)
            && (r.Err? ==> exists i :: 0 <= i < |gs| && OneBranchInfo(be, gs[i], detailed) == Err(r.error) &&
                                       forall j :: 0 <= j < i ==> OneBranchInfo(be, gs[j], detailed).Ok?)
  {
    var infos := InfosOf(be, gs, detailed);
    var r := AllOk(infos);
    if r.Ok? {
      forall i | 0 <= i < |gs|
        ensures OneBranchInfo(be, gs[i], detailed).Ok? && r.value[i] == OneBranchInfo(be, gs[i], detailed).value
      {
        assert infos[i] == OneBranchInfo(be, gs[i], detailed);
      }
    } else {
      var i :| 0 <= i < |infos| && infos[i] == Err(r.error) && forall j :: 0 <= j < i ==> infos[j].Ok?;
      assert OneBranchInfo(be, gs[i], detailed) == Err(r.error);
      forall j | 0 <= j < i ensures OneBranchInfo(be, gs[j], detailed).Ok? {
        assert infos[j] == OneBranchInfo(be, gs[j], detailed);
      }
    }
  }

  /** The info outcome of each branch, in order. */
  function InfosOf(be: Backend, gs: seq<Generation>, detailed: bool): (infos: seq<Result<GenerationInfo>>)
    requires forall i :: 0 <= i < |gs| ==> GenerationWf(gs[i])
    ensures |infos| == |gs| && forall i :: 0 <= i < |gs| ==> infos[i] == OneBranchInfo(be, gs[i], detailed)
  {
    seq(|gs|, i requires 0 <= i < |gs| => OneBranchInfo(be, gs[i], detailed))
  }

  /** The branches a backend may hand out carry well-formed unit maps. */
  ghost predicate BackendWf(be: Backend) {
    && (forall name :: be.branch(name).Ok? ==> GenerationWf(be.branch(name).value))
    && (be.branches.Ok? ==> forall i :: 0 <= i < |be.branches.value| ==> GenerationWf(be.branches.value[i]))
  }

  /** The branches BranchInfo reports on: the named ones, or every branch
      when no name is given. */
  function Requested(be: Backend, names: seq<string>): (r: Result<seq<Generation>>)
    requires BackendWf(be)
    ensures |names| > 0 ==> r == NamedBranches(be, names)
    ensures |names| == 0 ==> r == be.branches
    ensures r.Ok? ==> forall i :: 0 <= i < |r.value| ==> GenerationWf(r.value[i])
  {
    if |names| > 0 then NamedBranches(be, names) else be.branches
  }

  /** BranchInfo: with names, every named branch must exist and the first
      missing one is the error; with none, all branches are reported.
      Lookup and info failures are reported in the result. */
  function BranchInfo(api: API, be: Backend, names: seq<string>, detailed: bool): (r: Result<GenerationResults>)
    requires BackendWf(be)
    ensures Gate(api).Some? ==> r == Err(Gate(api).value)
    ensures r.Ok? <==> Gate(api).None?
    ensures Gate(api).None? && |names| > 0 && NamedBranches(be, names).Err? ==>
              r == Ok(GenerationResults([], Some(NamedBranches(be, names).error)))
    ensures Gate(api).None? && |names| == 0 && be.branches.Err? ==>
              r == Ok(GenerationResults([], Some(be.branches.error)))
    ensures r.Ok? && r.value.error.None? ==>
              var gs := if |names| > 0 then NamedBranches(be, names).value else be.branches.value;
              (|names| > 0 ==> NamedBranches(be, names).Ok?) && (|names| == 0 ==> be.branches.Ok?) &&
              |r.value.generations| == |gs| &&
              forall i :: 0 <= i < |gs| ==> GenerationWf(gs[i]) && OneBranchInfo(be, gs[i], detailed).Ok? &&
                                            r.value.generations[i] == OneBranchInfo(be, gs[i], detailed).value
    ensures Gate(api).None? && |names| > 0 && NamedBranches(be, names).Ok? ==>
              |names| == |NamedBranches(be, names).value|
    ensures Gate(api).None? && Requested(be, names).Ok? ==>
              var gs := Requested(be, names).value;
              r.Ok? && (r.value.error.None? <==> forall i :: 0 <= i < |gs| ==> OneBranchInfo(be, gs[i], detailed).Ok?)
    ensures Gate(api).None? && Requested(be, names).Ok? && r.value.error.Some? ==>
              var gs := Requested(be, names).value;
              && r.value.generations == []
              && exists i :: 0 <= i < |gs| && OneBranchInfo(be, gs[i], detailed) == Err(r.value.error.value) &&
                             forall j :: 0 <= j < i ==> OneBranchInfo(be, gs[j], detailed).Ok?
  {
    var denied := Gate(api);
    if denied.Some? then Err(denied.value)
    else
      var found := Requested(be, names);
      match found
      case Err(err) => Ok(GenerationResults([], Some(err)))
      case Ok(gs) =>
        BranchInfosOutcome(be, gs, detailed);
        match BranchInfos(be, gs, detailed)
        case Err(err) => Ok(GenerationResults([], Some(err)))
        case Ok(infos) => Ok(GenerationResults(infos, None))
  }

  // ---------------------------------------------------------------------
  // HasActiveBranch

  /** params.BoolResult. */
  datatype BoolResult = BoolResult(result: bool, error: Option<Error>)

  /** HasActiveBranch: found is true, not found is false without error, and
      any other lookup failure is reported in the result. */
  function HasActiveBranch(api: API, be: Backend, name: string): (r: Result<BoolResult>)
    ensures Gate(api).Some? ==> r == Err(Gate(api).value)
    ensures r.Ok? <==> Gate(api).None?
    ensures r.Ok? ==> (r.value.result <==> be.branch(name).Ok?)
    ensures r.Ok? ==> (r.value.error.Some? <==> be.branch(name).Err? && be.branch(name).error.kind != NotFound)
    ensures r.Ok? && r.value.error.Some? ==> r.value.error.value == be.branch(name).error
  {
    var denied := Gate(api);
    if denied.Some? then Err(denied.value)
    else
      match be.branch(name)
      case Err(err) => if err.kind == NotFound then Ok(BoolResult(false, None)) else Ok(BoolResult(false, Some(err)))
      case Ok(_) => Ok(BoolResult(true, None))
  }

  // ---------------------------------------------------------------------
  // Properties across operations.

  /** Every branch operation refuses a caller who is neither a model admin
      nor a controller admin, before touching the model. */
  lemma DeniedEverywhere(api: API, be: Backend, name: string, entities: seq<string>, names: seq<string>, detailed: bool)
    requires BackendWf(be)
    requires HasAdminAccess(api).Ok? && !MayWrite(api)
    ensures AddBranch(api, be, name) == AddBranchOutcome(Err(ErrPerm), None)
    ensures TrackBranch(api, be, name, entities) == Err(ErrPerm)
    ensures CommitBranch(api, be, name) == Err(ErrPerm)
    ensures BranchInfo(api, be, names, detailed) == Err(ErrPerm)
    ensures HasActiveBranch(api, be, name) == Err(ErrPerm)
  {
  }

  /** A model-admin lookup that is not found still lets a controller admin
      in. */
  lemma ControllerAdminSuffices(api: API)
    requires api.isControllerAdmin
    requires api.authorizer.modelAdmin.Err? && api.authorizer.modelAdmin.error.kind == NotFound
    ensures Gate(api).None?
  {
  }

  /** The detailed unit lists do not depend on the order in which the
      backend lists units, nor on repeated names. */
  lemma DetailedListsCanonical(be1: Backend, be2: Backend, g: Generation, appName: string)
    requires appName in g.assignedUnits
    requires AppEntry(be1, g, appName, true).Ok? && AppEntry(be2, g, appName, true).Ok?
    requires forall u :: u in be1.application(appName).value.unitNames.value <==> u in be2.application(appName).value.unitNames.value
    ensures AppEntry(be1, g, appName, true).value.unitsPending == AppEntry(be2, g, appName, true).value.unitsPending
    ensures AppEntry(be1, g, appName, true).value.unitsTracking == AppEntry(be2, g, appName, true).value.unitsTracking
  {
    StringOrder.SortedUnique(AppEntry(be1, g, appName, true).value.unitsPending, AppEntry(be2, g, appName, true).value.unitsPending);
    StringOrder.SortedUnique(AppEntry(be1, g, appName, true).value.unitsTracking, AppEntry(be2, g, appName, true).value.unitsTracking);
  }

  /** The progress text reads back as the number of tracking units over the
      number of units of the application. */
  lemma ProgressReadsBack(be: Backend, g: Generation, appName: string, detailed: bool)
    requires appName in g.assignedUnits
    requires AppEntry(be, g, appName, detailed).Ok?
    ensures Decimal.ParseProgress(AppEntry(be, g, appName, detailed).value.unitProgress) ==
              Decimal.Parsed(|g.assignedUnits[appName]|, |be.application(appName).value.unitNames.value|)
  {
    Decimal.ProgressRoundTrip(|g.assignedUnits[appName]|, |be.application(appName).value.unitNames.value|);
  }
}
