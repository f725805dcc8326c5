/** The credential-validity worker (worker/credentialvalidator/worker.go):
    at start it reads the model's cloud credential, watches it when it has
    a name, reports the validity it started with as its flag, and stops as
    soon as a re-read shows the validity has changed.

    The facade's replies are parameters of the operations that call it;
    the catacomb's goroutine is a fold over the events its select can
    receive. */
module CredentialWorker {
  import opened Errors

  /** ErrValidityChanged. */
  const ErrValidityChanged := Error(Other, "cloud credential validity has changed")

  /** ErrModelMissingCredentialRequired. */
  const ErrModelMissingCredentialRequired :=
    Error(Other, "model has no credential set but is on the cloud that requires it")

  /** base.StoredCredential as far as the worker reads it. */
  datatype StoredCredential = StoredCredential(cloudCredential: string, valid: bool)

  const EmptyCredential := StoredCredential("", false)

  /** One reply of Facade.ModelCredential: the credential and whether it is
      set, or an error. */
  datatype CredentialReply = Reply(credential: StoredCredential, isSet: bool) | ReplyErr(err: Error)

  /** The facade's identity; what it answers is given per call. */
  datatype Facade = Facade(id: nat)

  datatype Config = Config(facade: Option<Facade>)

  /** The facade methods the worker calls, in call order. */
  datatype FacadeCall = ModelCredentialCall | WatchCredentialCall(name: string)

  /** Config.Validate. */
  function Validate(config: Config): (r: Option<Error>)
    ensures r.None? <==> config.facade.Some?
    ensures r.Some? ==> r.value == Error(NotValid, "nil Facade not valid")
  {
    if config.facade.None? then Some(NotValidf("nil Facade")) else None
  }

  /** modelCredential: facade errors pass through; an unset credential on a
      cloud that needs one is ErrModelMissingCredentialRequired. */
  function ModelCredential(reply: CredentialReply): (r: Result<StoredCredential>)
    ensures reply.ReplyErr? ==> r == Err(reply.err)
    ensures reply.Reply? ==> (r == Err(ErrModelMissingCredentialRequired) <==> !reply.isSet && !reply.credential.valid)
    ensures r.Ok? <==> reply.Reply? && (reply.isSet || reply.credential.valid)
    ensures r.Ok? ==> r.value == reply.credential
  {
    match reply
    case ReplyErr(err) => Err(err)
    case Reply(mc, isSet) =>
      if !isSet && !mc.valid then Err(ErrModelMissingCredentialRequired) else Ok(mc)
  }

  /** Why the loop ended: the catacomb is dying (or the change channel
      closed), or an error. */
  datatype Stop = Dying | Failed(err: Error)

  datatype Status = Running | Stopped(stop: Stop)

  /** The validator: the credential read at start, whether a watcher was
      set up, and whether its loop still runs. */
  datatype Validator = Validator(credential: StoredCredential, watching: bool, status: Status)

  datatype Started = Started(result: Result<Validator>, calls: seq<FacadeCall>)

  /** NewWorker, given the facade's ModelCredential reply and what its
      WatchCredential call returns. */
  function NewWorker(config: Config, reply: CredentialReply, watchErr: Option<Error>): (s: Started)
    ensures config.facade.None? ==> s == Started(Err(NotValidf("nil Facade")), [])
    ensures config.facade.Some? ==> |s.calls| >= 1 && s.calls[0] == ModelCredentialCall
    ensures config.facade.Some? && ModelCredential(reply).Err? ==>
              s == Started(Err(ModelCredential(reply).error), [ModelCredentialCall])
    ensures s.result.Ok? ==> s.result.value.credential == reply.credential && s.result.value.status == Running
    ensures (exists name :: WatchCredentialCall(name) in s.calls) <==>
              config.facade.Some? && ModelCredential(reply).Ok? && reply.credential.cloudCredential != ""
    ensures s.result.Ok? ==> (s.result.value.watching <==> reply.credential.cloudCredential != "")
    ensures s.result.Ok? <==>
              config.facade.Some? && ModelCredential(reply).Ok? && (reply.credential.cloudCredential == "" || watchErr.None?)
    ensures config.facade.Some? && ModelCredential(reply).Ok? && reply.credential.cloudCredential == "" ==>
              s.calls == [ModelCredentialCall]
    ensures config.facade.Some? && ModelCredential(reply).Ok? && reply.credential.cloudCredential != "" ==>
              && s.calls == [ModelCredentialCall, WatchCredentialCall(reply.credential.cloudCredential)]
              && (watchErr.Some? ==> s.result == Err(watchErr.value))
  {
    var invalid := Validate(config);
    if invalid.Some? then Started(Err(invalid.value), [])
    else
      match ModelCredential(reply)
      case Err(err) => Started(Err(err), [ModelCredentialCall])
      case Ok(mc) =>
        if mc.cloudCredential != "" then
          var calls := [ModelCredentialCall, WatchCredentialCall(mc.cloudCredential)];
          assert WatchCredentialCall(mc.cloudCredential) in calls;
          if watchErr.Some? then Started(Err(watchErr.value), calls)
          else Started(Ok(Validator(mc, true, Running)), calls)
        else Started(Ok(Validator(mc, false, Running)), [ModelCredentialCall])
  }

  /** A failed watch is the only thing that separates a named credential's
      start from success: the same calls are made either way. */
  lemma WatchFailureOnlyDiffers(config: Config, reply: CredentialReply, e: Error)
    requires config.facade.Some? && ModelCredential(reply).Ok? && reply.credential.cloudCredential != ""
    ensures NewWorker(config, reply, None).result == Ok(Validator(reply.credential, true, Running))
    ensures NewWorker(config, reply, Some(e)) == Started(Err(e), NewWorker(config, reply, None).calls)
  {
  }

  /** Without a credential name no watch is made, so what it would have
      returned cannot matter. */
  lemma UnnamedIgnoresWatch(config: Config, reply: CredentialReply, w1: Option<Error>, w2: Option<Error>)
    requires reply.Reply? && reply.credential.cloudCredential == ""
    ensures NewWorker(config, reply, w1) == NewWorker(config, reply, w2)
  {
  }

  /** Check: the flag is the validity captured at start. */
  function Check(v: Validator): (valid: bool)
    ensures valid == v.credential.valid
  {
    v.credential.valid
  }

  /** What the loop's select can receive: the dying signal, a closed change
      channel, or a change, answered by a fresh ModelCredential reply. */
  datatype Event = DyingSignal | ChangesClosed | Change(reply: CredentialReply)

  datatype Stepped = Stepped(validator: Validator, calls: seq<FacadeCall>)

  /** One turn of the loop. Without a watcher the change channel is nil, so
      only the dying signal is ever received. */
  function Step(v: Validator, ev: Event): (s: Stepped)
    ensures s.validator.credential == v.credential && s.validator.watching == v.watching
    ensures v.status.Stopped? ==> s == Stepped(v, [])
    ensures v.status == Running && ev.DyingSignal? ==> s == Stepped(v.(status := Stopped(Dying)), [])
    ensures v.status == Running && v.watching && ev.ChangesClosed? ==> s == Stepped(v.(status := Stopped(Dying)), [])
    ensures v.status == Running && !v.watching && !ev.DyingSignal? ==> s == Stepped(v, [])
    ensures v.status == Running && v.watching && ev.Change? ==> s.calls == [ModelCredentialCall]
    ensures v.status == Running && v.watching && ev.Change? ==>
              (s.validator.status == Running <==>
                 ModelCredential(ev.reply).Ok? && ModelCredential(ev.reply).value.valid == v.credential.valid)
    ensures v.status == Running && v.watching && ev.Change? && ModelCredential(ev.reply).Ok? &&
            ModelCredential(ev.reply).value.valid != v.credential.valid ==>
              s.validator.status == Stopped(Failed(ErrValidityChanged))
    ensures v.status == Running && v.watching && ev.Change? && ModelCredential(ev.reply).Err? ==>
              s.validator.status == Stopped(Failed(ModelCredential(ev.reply).error))
  {
    if v.status.Stopped? then Stepped(v, [])
    else
      match ev
      case DyingSignal => Stepped(v.(status := Stopped(Dying)), [])
      case ChangesClosed =>
        if v.watching then Stepped(v.(status := Stopped(Dying)), []) else Stepped(v, [])
      case Change(reply) =>
        if !v.watching then Stepped(v, [])
        else
          match ModelCredential(reply)
          case Err(err) => Stepped(v.(status := Stopped(Failed(err))), [ModelCredentialCall])
          case Ok(updated) =>
            if v.credential.valid != updated.valid then
              Stepped(v.(status := Stopped(Failed(ErrValidityChanged))), [ModelCredentialCall])
            else Stepped(v, [ModelCredentialCall])
  }

  /** The loop over a run of events; the credential, and so the flag, never
      changes while the worker lives. */
  function Run(v: Validator, events: seq<Event>): (s: Stepped)
    ensures s.validator.credential == v.credential && s.validator.watching == v.watching
    decreases |events|
  {
    if |events| == 0 then Stepped(v, [])
    else
      var first := Step(v, events[0]);
      var rest := Run(first.validator, events[1..]);
      Stepped(rest.validator, first.calls + rest.calls)
  }

  /** A stopped loop stays stopped with the same reason and calls nothing. */
  lemma {:induction false} StopIsFinal(v: Validator, events: seq<Event>)
    requires v.status.Stopped?
    ensures Run(v, events) == Stepped(v, [])
    decreases |events|
  {
    if |events| > 0 {
      StopIsFinal(v, events[1..]);
    }
  }

  /** A change is settled for a worker that started with validity
      `initial` when its re-read succeeds with that same validity; any
      other change stops a watching worker. */
  predicate Settled(initial: bool, ev: Event) {
    ev.Change? && ModelCredential(ev.reply).Ok? && ModelCredential(ev.reply).value.valid == initial
  }

  /** A watching worker keeps running through changes exactly as long as
      every re-read succeeds with the validity it started with; each change
      costs one ModelCredential call. */
  lemma {:induction false} RunsWhileSettled(v: Validator, events: seq<Event>)
    requires v.status == Running && v.watching
    requires forall i :: 0 <= i < |events| ==> events[i].Change?
    ensures Run(v, events).validator.status == Running <==>
              forall i :: 0 <= i < |events| ==> Settled(v.credential.valid, events[i])
    ensures (forall i :: 0 <= i < |events| ==> Settled(v.credential.valid, events[i])) ==>
              Run(v, events).calls == seq(|events|, _ => ModelCredentialCall)
    decreases |events|
  {
    if |events| > 0 {
      var first := Step(v, events[0]);
      assert forall i :: 1 <= i < |events| ==> events[i] == events[1..][i - 1];
      if first.validator.status == Running {
        RunsWhileSettled(first.validator, events[1..]);
        assert first.validator == v;
        assert forall i :: 0 <= i < |events[1..]| ==> events[1..][i] == events[i + 1];
      } else {
        StopIsFinal(first.validator, events[1..]);
        assert !Settled(v.credential.valid, events[0]);
      }
    }
  }

  /** The first change that flips validity stops the worker with
      ErrValidityChanged, whatever follows. */
  lemma FlipStops(v: Validator, prefix: seq<Event>, reply: CredentialReply, suffix: seq<Event>)
    requires v.status == Running && v.watching
    requires forall i :: 0 <= i < |prefix| ==> Settled(v.credential.valid, prefix[i])
    requires ModelCredential(reply).Ok? && ModelCredential(reply).value.valid != v.credential.valid
    ensures Run(v, prefix + [Change(reply)] + suffix).validator.status == Stopped(Failed(ErrValidityChanged))
  {
    RunPrefixSettled(v, prefix, [Change(reply)] + suffix);
    assert prefix + [Change(reply)] + suffix == prefix + ([Change(reply)] + suffix);
    var tail := [Change(reply)] + suffix;
    assert tail[1..] == suffix;
    StopIsFinal(Step(v, Change(reply)).validator, suffix);
  }

  /** A closed change channel after settled changes stops a watching
      worker as dying, with no call for it, whatever follows. */
  lemma ClosedStops(v: Validator, prefix: seq<Event>, suffix: seq<Event>)
    requires v.status == Running && v.watching
    requires forall i :: 0 <= i < |prefix| ==> Settled(v.credential.valid, prefix[i])
    ensures Run(v, prefix + [ChangesClosed] + suffix).validator.status == Stopped(Dying)
  {
    RunPrefixSettled(v, prefix, [ChangesClosed] + suffix);
    assert prefix + [ChangesClosed] + suffix == prefix + ([ChangesClosed] + suffix);
    var tail := [ChangesClosed] + suffix;
    assert tail[1..] == suffix;
    StopIsFinal(Step(v, ChangesClosed).validator, suffix);
  }

  /** The flag a started worker reports, after any run of events, is the
      validity of the credential its first read returned. */
  lemma CheckIsStartValidity(config: Config, reply: CredentialReply, watchErr: Option<Error>, events: seq<Event>)
    requires NewWorker(config, reply, watchErr).result.Ok?
    ensures Check(Run(NewWorker(config, reply, watchErr).result.value, events).validator) == reply.credential.valid
  {
  }

  /** Settled changes leave the validator as it was. */
  lemma {:induction false} RunPrefixSettled(v: Validator, prefix: seq<Event>, rest: seq<Event>)
    requires v.status == Running && v.watching
    requires forall i :: 0 <= i < |prefix| ==> Settled(v.credential.valid, prefix[i])
    ensures Run(v, prefix + rest).validator == Run(v, rest).validator
    decreases |prefix|
  {
    if |prefix| > 0 {
      assert (prefix + rest)[0] == prefix[0];
      assert (prefix + rest)[1..] == prefix[1..] + rest;
      assert Step(v, prefix[0]).validator == v;
      assert Run(v, prefix + rest).validator == Run(v, prefix[1..] + rest).validator;
      assert forall i :: 0 <= i < |prefix[1..]| ==> prefix[1..][i] == prefix[i + 1];
      RunPrefixSettled(v, prefix[1..], rest);
    } else {
      assert prefix + rest == rest;
    }
  }

  /** A worker without a watcher ignores everything but the dying signal. */
  lemma {:induction false} UnwatchedOnlyDies(v: Validator, events: seq<Event>)
    requires v.status == Running && !v.watching
    requires forall i :: 0 <= i < |events| ==> !events[i].DyingSignal?
    ensures Run(v, events) == Stepped(v, [])
    decreases |events|
  {
    if |events| > 0 {
      assert forall i :: 1 <= i < |events| ==> events[i] == events[1..][i - 1];
      UnwatchedOnlyDies(v, events[1..]);
    }
  }
}
