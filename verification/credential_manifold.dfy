/** The dependency-engine manifold of the credential-validity worker
    (worker/credentialvalidator/manifold.go): configuration checks, the
    start sequence API caller -> facade -> worker, the single input, and
    the error filter that turns a validity change into a bounce. */
module CredentialManifold {
  import opened Errors
  import CredentialWorker

  /** dependency.ErrMissing and dependency.ErrBounce. */
  const ErrMissing := Error(Other, "dependency not available")
  const ErrBounce := Error(Other, "restart immediately")

  /** The API connection a dependency supplies. */
  datatype APICaller = APICaller(id: nat)

  /** The started worker, by identity. */
  datatype WorkerRef = WorkerRef(id: nat)

  /** ManifoldConfig; a nil function is None. */
  datatype ManifoldConfig = ManifoldConfig(
    apiCallerName: string,
    newFacade: Option<APICaller -> Result<CredentialWorker.Facade>>,
    newWorker: Option<CredentialWorker.Config -> Result<WorkerRef>>)

  /** ManifoldConfig.Validate: the three fields are checked in order. */
  function Validate(config: ManifoldConfig): (r: Option<Error>)
    ensures r.None? <==> config.apiCallerName != "" && config.newFacade.Some? && config.newWorker.Some?
    ensures config.apiCallerName == "" ==> r == Some(Error(NotValid, "empty APICallerName not valid"))
    ensures config.apiCallerName != "" && config.newFacade.None? ==> r == Some(Error(NotValid, "nil NewFacade not valid"))
    ensures config.apiCallerName != "" && config.newFacade.Some? && config.newWorker.None? ==>
              r == Some(Error(NotValid, "nil NewWorker not valid"))
  {
    assert "empty APICallerName" + " not valid" == "empty APICallerName not valid";
    assert "nil NewFacade" + " not valid" == "nil NewFacade not valid";
    assert "nil NewWorker" + " not valid" == "nil NewWorker not valid";
    if config.apiCallerName == "" then Some(NotValidf("empty APICallerName"))
    else if config.newFacade.None? then Some(NotValidf("nil NewFacade"))
    else if config.newWorker.None? then Some(NotValidf("nil NewWorker"))
    else None
  }

  /** The engine's view of the resources the manifold may ask for. */
  type Context = map<string, Result<APICaller>>

  /** dependency.Context.Get. */
  function Get(context: Context, name: string): Result<APICaller> {
    if name in context then context[name] else Err(ErrMissing)
  }

  /** What start did: its result and the worker configuration it built, if
      it got that far. */
  datatype StartOutcome = StartOutcome(result: Result<WorkerRef>, workerConfig: Option<CredentialWorker.Config>)

  /** start: validate, fetch the API caller, make the facade, make the
      worker from exactly that facade; every failure returns no worker. */
  function Start(config: ManifoldConfig, context: Context): (s: StartOutcome)
    ensures Validate(config).Some? ==> s == StartOutcome(Err(Validate(config).value), None)
    ensures Validate(config).None? && Get(context, config.apiCallerName).Err? ==>
              s == StartOutcome(Err(Get(context, config.apiCallerName).error), None)
    ensures Validate(config).None? && Get(context, config.apiCallerName).Ok? ==>
              var facade := config.newFacade.value(Get(context, config.apiCallerName).value);
              && (facade.Err? ==> s == StartOutcome(Err(facade.error), None))
              && (facade.Ok? ==> s.workerConfig == Some(CredentialWorker.Config(Some(facade.value))) &&
                                 s.result == config.newWorker.value(s.workerConfig.value))
    ensures s.result.Ok? ==> Validate(config).None? && Get(context, config.apiCallerName).Ok?
  {
    var invalid := Validate(config);
    if invalid.Some? then StartOutcome(Err(invalid.value), None)
    else
      match Get(context, config.apiCallerName)
      case Err(err) => StartOutcome(Err(err), None)
      case Ok(apiCaller) =>
        match config.newFacade.value(apiCaller)
        case Err(err) => StartOutcome(Err(err), None)
        case Ok(facade) =>
          var workerConfig := CredentialWorker.Config(Some(facade));
          StartOutcome(config.newWorker.value(workerConfig), Some(workerConfig))
  }

  /** filterErrors: only ErrValidityChanged becomes ErrBounce; nil and every
      other error pass through unchanged. */
  function FilterErrors(err: Option<Error>): (r: Option<Error>)
    ensures r == Some(ErrBounce) <==> err == Some(CredentialWorker.ErrValidityChanged) || err == Some(ErrBounce)
    ensures err != Some(CredentialWorker.ErrValidityChanged) ==> r == err
    ensures r.None? <==> err.None?
  {
    if err == Some(CredentialWorker.ErrValidityChanged) then Some(ErrBounce) else err
  }

  /** The manifold as the engine sees it. */
  datatype Manifold = Manifold(inputs: seq<string>, config: ManifoldConfig)

  /** Manifold: the API caller is the one input. */
  function NewManifold(config: ManifoldConfig): (m: Manifold)
    ensures m.inputs == [config.apiCallerName]
    ensures m.config == config
  {
    Manifold([config.apiCallerName], config)
  }

  /** A validity change stops the worker with an error the filter turns
      into a bounce. */
  lemma ValidityChangeBounces(v: CredentialWorker.Validator, reply: CredentialWorker.CredentialReply)
    requires v.status == CredentialWorker.Running && v.watching
    requires CredentialWorker.ModelCredential(reply).Ok?
    requires CredentialWorker.ModelCredential(reply).value.valid != v.credential.valid
    ensures var stopped := CredentialWorker.Step(v, CredentialWorker.Change(reply)).validator.status;
            stopped.Stopped? && stopped.stop.Failed? && FilterErrors(Some(stopped.stop.err)) == Some(ErrBounce)
  {
  }

  /** The filter passes ErrModelMissingCredentialRequired through
      unchanged: it is not turned into a bounce. */
  lemma MissingCredentialNotBounced()
    ensures FilterErrors(Some(CredentialWorker.ErrModelMissingCredentialRequired)) ==
              Some(CredentialWorker.ErrModelMissingCredentialRequired)
    ensures FilterErrors(Some(CredentialWorker.ErrModelMissingCredentialRequired)) != Some(ErrBounce)
  {
  }
}
