/** Resource-deploy planning (cmd/juju/resource/deploy.go): which supplied
    resource names are unknown, which resources come from the charm store
    and at what revision, how validation failures aggregate, and how the
    name -> pending-id map is assembled. File access and the resources API
    client are collaborator functions; each Go map walk is an explicit
    order over the map's keys. */
module ResourceDeploy {
  import opened Errors

  /** charmresource.Type; the zero value is not a valid type. */
  datatype ResourceType = TypeUnknown | TypeFile | TypeContainerImage

  /** charmresource.Meta; the fields other than the name and type are
      carried along unread. */
  datatype Meta = Meta(name: string, rtype: ResourceType, path: string, description: string)

  /** The zero Meta a Go map lookup yields for an absent name. */
  const ZeroMeta := Meta("", TypeUnknown, "", "")

  datatype Origin = OriginUnknown | OriginUpload | OriginStore

  /** charmresource.Resource as built here: fingerprint and size are filled
      in by the server. */
  datatype Resource = Resource(meta: Meta, origin: Origin, revision: int)

  /** The outcome of os.Stat on a path. */
  datatype StatResult = StatOk | StatNotExist(err: Error) | StatFailed(err: Error)

  /** What is streamed to UploadPendingResource: an opened file, or the JSON
      of the docker image details. */
  datatype Data = FileContents(filename: string) | DockerImageDetails(registryPath: string)

  /** A call into the resources API client. */
  datatype Call =
    | AddPendingResources(applicationID: string, resources: seq<Resource>)
    | UploadPendingResource(applicationID: string, resource: Resource, filename: string, data: Data)

  /** Meta.Validate, os.Stat, resources.CheckDockerDetails, os.Open and the
      two client calls. */
  datatype Collaborators = Collaborators(
    validateMeta: Meta -> Option<Error>,
    stat: string -> StatResult,
    checkDockerDetails: (string, string) -> Option<Error>,
    open: string -> Option<Error>,
    addPendingResources: seq<Resource> -> Result<seq<string>>,
    uploadPendingResource: (Resource, string, Data) -> Result<string>)

  /** The client promises one id per resource passed to AddPendingResources. */
  ghost predicate AddPendingOneToOne(c: Collaborators) {
    forall rs :: c.addPendingResources(rs).Ok? ==> |c.addPendingResources(rs).value| == |rs|
  }

  /** deployUploader: the application and the charm's resource metadata,
      with the order its map is walked in. */
  datatype Uploader = Uploader(applicationID: string, resources: map<string, Meta>, metaOrder: seq<string>)

  predicate UploaderWf(d: Uploader) {
    Enumerates(d.metaOrder, d.resources.Keys)
  }

  function MetaFor(d: Uploader, name: string): Meta {
    if name in d.resources then d.resources[name] else ZeroMeta
  }

  /** errors.Annotatef: the cause is kept, the message is prefixed. */
  function Annotate(err: Error, prefix: string): Error {
    Error(err.kind, prefix + ": " + err.message)
  }

  // ---------------------------------------------------------------------
  // validateResources

  /** The Validate failures of the metadata, in walk order. */
  function MetaErrors(c: Collaborators, d: Uploader, order: seq<string>): (errs: seq<Error>)
    requires forall k :: k in order ==> k in d.resources
    ensures |errs| <= |order|
    ensures (|errs| == 0) <==> forall i :: 0 <= i < |order| ==> c.validateMeta(d.resources[order[i]]).None?
    ensures forall err :: err in errs ==> exists k :: k in order && c.validateMeta(d.resources[k]) == Some(err)
    decreases |order|
  {
    if |order| == 0 then []
    else
      var rest := MetaErrors(c, d, order[1..]);
      assert forall i :: 1 <= i < |order| ==> order[i] == order[1..][i - 1];
      match c.validateMeta(d.resources[order[0]])
      case Some(err) => [err] + rest
      case None => rest
  }

  /** Which walked metadata fail Validate. */
  function MetaFails(c: Collaborators, d: Uploader, order: seq<string>): (f: seq<bool>)
    requires forall k :: k in order ==> k in d.resources
    ensures |f| == |order|
  {
    seq(|order|, i requires 0 <= i < |order| => c.validateMeta(d.resources[order[i]]).Some?)
  }

  /** The failure Validate reports for the metadata at position `i`. */
  function MetaErrorAt(c: Collaborators, d: Uploader, order: seq<string>, i: nat): Error
    requires forall k :: k in order ==> k in d.resources
    requires i < |order| && MetaFails(c, d, order)[i]
  {
    c.validateMeta(d.resources[order[i]]).value
  }

  /** Exactly one error per failing metadata, in walk order: the errors
      collected from position `i` on are those of the failing positions
      at or after `i`. */
  lemma {:induction false} MetaErrorsFrom(c: Collaborators, d: Uploader, order: seq<string>, i: nat)
    requires forall k :: k in order ==> k in d.resources
    requires i <= |order|
    ensures var errs := MetaErrors(c, d, order[i..]);
            var ps := PositionsFrom(MetaFails(c, d, order), i);
            |errs| == |ps| && forall k :: 0 <= k < |ps| ==> errs[k] == MetaErrorAt(c, d, order, ps[k])
    decreases |order| - i
  {
    if i < |order| {
      MetaErrorsFrom(c, d, order, i + 1);
      var tail := order[i..];
      assert tail[0] == order[i] && tail[1..] == order[i + 1..];
      var errs, rest := MetaErrors(c, d, tail), MetaErrors(c, d, order[i + 1..]);
      var ps, later := PositionsFrom(MetaFails(c, d, order), i), PositionsFrom(MetaFails(c, d, order), i + 1);
      var v := c.validateMeta(d.resources[order[i]]);
      if v.Some? {
        assert errs == [v.value] + rest && ps == [i] + later;
        forall k | 0 <= k < |ps| ensures errs[k] == MetaErrorAt(c, d, order, ps[k]) {
          if k > 0 {
            assert errs[k] == rest[k - 1] && ps[k] == later[k - 1];
          }
        }
      } else {
        assert errs == rest && ps == later;
      }
    }
  }

  /** The collected errors are exactly the failures, one per failing
      metadata, in walk order. */
  lemma MetaErrorsExact(c: Collaborators, d: Uploader, order: seq<string>)
    requires forall k :: k in order ==> k in d.resources
    ensures var errs := MetaErrors(c, d, order);
            var ps := Positions(MetaFails(c, d, order));
            |errs| == |ps| && forall k :: 0 <= k < |ps| ==> errs[k] == MetaErrorAt(c, d, order, ps[k])
  {
    MetaErrorsFrom(c, d, order, 0);
    assert order[0..] == order;
  }

  function Messages(errs: seq<Error>): (ms: seq<string>)
    ensures |ms| == |errs| && forall i :: 0 <= i < |errs| ==> ms[i] == errs[i].message
  {
    seq(|errs|, i requires 0 <= i < |errs| => errs[i].message)
  }

  /** validateResources: no failures is fine; a single failure is returned
      as it is; several are one NotValid error listing every message. */
  function ValidateResources(c: Collaborators, d: Uploader): (r: Option<Error>)
    requires UploaderWf(d)
    ensures r.None? <==> forall k :: k in d.resources ==> c.validateMeta(d.resources[k]).None?
    ensures var errs := MetaErrors(c, d, d.metaOrder);
            && (|errs| == 1 ==> r == Some(errs[0]))
            && (|errs| > 1 ==> r == Some(Error(NotValid, Join(Messages(errs), ", "))))
  {
    var errs := MetaErrors(c, d, d.metaOrder);
    if |errs| == 1 then Some(errs[0])
    else if |errs| > 1 then Some(Error(NotValid, Join(Messages(errs), ", ")))
    else None
  }

  /** validateResources over the failing metadata in walk order: one
      failure is returned as it is, and several become one NotValid error
      whose message joins every failure's message, in walk order, with
      ", ". */
  lemma ValidateResourcesJoinsAll(c: Collaborators, d: Uploader)
    requires UploaderWf(d)
    ensures var ps := Positions(MetaFails(c, d, d.metaOrder));
            && (|ps| == 0 ==> ValidateResources(c, d) == None)
            && (|ps| == 1 ==> ValidateResources(c, d) == Some(MetaErrorAt(c, d, d.metaOrder, ps[0])))
            && (|ps| > 1 ==>
                  ValidateResources(c, d) ==
                    Some(Error(NotValid, Join(seq(|ps|, k requires 0 <= k < |ps| =>
                                                    MetaErrorAt(c, d, d.metaOrder, ps[k]).message), ", "))))
  {
    var ps := Positions(MetaFails(c, d, d.metaOrder));
    var errs := MetaErrors(c, d, d.metaOrder);
    MetaErrorsExact(c, d, d.metaOrder);
    if |ps| > 1 {
      assert Messages(errs) == seq(|ps|, k requires 0 <= k < |ps| => MetaErrorAt(c, d, d.metaOrder, ps[k]).message);
    }
  }

  // ---------------------------------------------------------------------
  // checkExpectedResources

  /** The names of `order` without metadata, in order. */
  function UnknownNames(d: Uploader, order: seq<string>): (u: seq<string>)
    ensures forall n :: n in u <==> n in order && n !in d.resources
    ensures |u| <= |order|
    decreases |order|
  {
    if |order| == 0 then []
    else (if order[0] in d.resources then [] else [order[0]]) + UnknownNames(d, order[1..])
  }

  /** Which walked names have no metadata. */
  function UnknownFlags(d: Uploader, order: seq<string>): (f: seq<bool>)
    ensures |f| == |order|
  {
    seq(|order|, i requires 0 <= i < |order| => order[i] !in d.resources)
  }

  lemma {:induction false} UnknownNamesFrom(d: Uploader, order: seq<string>, i: nat)
    requires i <= |order|
    ensures var u := UnknownNames(d, order[i..]);
            var ps := PositionsFrom(UnknownFlags(d, order), i);
            |u| == |ps| && forall k :: 0 <= k < |ps| ==> u[k] == order[ps[k]]
    decreases |order| - i
  {
    if i < |order| {
      UnknownNamesFrom(d, order, i + 1);
      var tail := order[i..];
      assert tail[0] == order[i] && tail[1..] == order[i + 1..];
      SelectStep(order, i, order[i] !in d.resources, UnknownNames(d, tail), UnknownNames(d, order[i + 1..]),
                 PositionsFrom(UnknownFlags(d, order), i), PositionsFrom(UnknownFlags(d, order), i + 1));
    }
  }

  /** The unknown names are listed once per walked name without metadata,
      in walk order. */
  lemma UnknownNamesExact(d: Uploader, order: seq<string>)
    ensures var u := UnknownNames(d, order);
            var ps := Positions(UnknownFlags(d, order));
            |u| == |ps| && forall k :: 0 <= k < |ps| ==> u[k] == order[ps[k]]
  {
    UnknownNamesFrom(d, order, 0);
    assert order[0..] == order;
  }

  /** checkExpectedResources: every supplied file name and every supplied
      revision must name a resource of the charm. A name that is unknown in
      both maps is reported twice. */
  function CheckExpectedResources(d: Uploader, filenames: map<string, string>, fileOrder: seq<string>,
                                  revisions: map<string, int>, revisionOrder: seq<string>): (r: Option<Error>)
    requires Enumerates(fileOrder, filenames.Keys) && Enumerates(revisionOrder, revisions.Keys)
    ensures r.None? <==> (forall n :: n in filenames ==> n in d.resources) && (forall n :: n in revisions ==> n in d.resources)
    ensures var unknown := UnknownNames(d, fileOrder) + UnknownNames(d, revisionOrder);
            && (|unknown| == 1 ==> r == Some(Error(Other, "unrecognized resource " + Quote(unknown[0]))))
            && (|unknown| > 1 ==> r == Some(Error(Other, "unrecognized resources: " + Join(unknown, ", "))))
  {
    var unknown := UnknownNames(d, fileOrder) + UnknownNames(d, revisionOrder);
    assert |unknown| > 0 ==> unknown[0] in filenames || unknown[0] in revisions by {
      if |unknown| > 0 {
        assert unknown[0] in UnknownNames(d, fileOrder) || unknown[0] in UnknownNames(d, revisionOrder);
      }
    }
    if |unknown| == 1 then Some(Error(Other, "unrecognized resource " + Quote(unknown[0])))
    else if |unknown| > 1 then Some(Error(Other, "unrecognized resources: " + Join(unknown, ", ")))
    else None
  }

  /** A single supplied file name without metadata, and no unknown
      revision, is reported once, by the singular message. */
  lemma CheckExpectedOneUnknown(d: Uploader, filenames: map<string, string>, fileOrder: seq<string>,
                                revisions: map<string, int>, revisionOrder: seq<string>, n: string)
    requires Enumerates(fileOrder, filenames.Keys) && Enumerates(revisionOrder, revisions.Keys)
    requires n in filenames && n !in d.resources
    requires forall m :: m in filenames && m != n ==> m in d.resources
    requires forall m :: m in revisions ==> m in d.resources
    ensures CheckExpectedResources(d, filenames, fileOrder, revisions, revisionOrder) ==
              Some(Error(Other, "unrecognized resource " + Quote(n)))
  {
    OneUnknownName(d, filenames, fileOrder, n);
    NoUnknownNames(d, revisionOrder);
    assert UnknownNames(d, fileOrder) + UnknownNames(d, revisionOrder) == [n];
  }

  /** A walk in which only `n` lacks metadata lists `n` once. */
  lemma OneUnknownName(d: Uploader, filenames: map<string, string>, fileOrder: seq<string>, n: string)
    requires Enumerates(fileOrder, filenames.Keys)
    requires n in filenames && n !in d.resources
    requires forall m :: m in filenames && m != n ==> m in d.resources
    ensures UnknownNames(d, fileOrder) == [n]
  {
    var flags := UnknownFlags(d, fileOrder);
    assert n in fileOrder;
    var j :| 0 <= j < |fileOrder| && fileOrder[j] == n;
    forall q | 0 <= q < |flags| && q != j ensures !flags[q] {
      assert fileOrder[q] != fileOrder[j] && fileOrder[q] in filenames;
    }
    SingleUnknown(d, fileOrder, j);
  }

  /** A walk in which only position `j` lacks metadata collects just that
      name. */
  lemma SingleUnknown(d: Uploader, order: seq<string>, j: nat)
    requires j < |order| && order[j] !in d.resources
    requires forall q :: 0 <= q < |order| && q != j ==> !UnknownFlags(d, order)[q]
    ensures UnknownNames(d, order) == [order[j]]
  {
    PositionsOfOne(UnknownFlags(d, order), j, 0);
    UnknownNamesExact(d, order);
    var u := UnknownNames(d, order);
    assert |u| == 1 && u[0] == order[j];
  }

  /** A walk of known names lists none. */
  lemma NoUnknownNames(d: Uploader, order: seq<string>)
    requires forall m :: m in order ==> m in d.resources
    ensures UnknownNames(d, order) == []
  {
    if |UnknownNames(d, order)| > 0 {
      assert UnknownNames(d, order)[0] in UnknownNames(d, order);
    }
  }

  // ---------------------------------------------------------------------
  // validateResourceDetails

  /** checkFile: a missing file and an unreadable one give different
      annotations. */
  function CheckFile(c: Collaborators, name: string, path: string): (r: Option<Error>)
    ensures c.stat(path).StatOk? <==> r.None?
    ensures c.stat(path).StatNotExist? ==> r == Some(Annotate(c.stat(path).err, "file for resource " + Quote(name)))
    ensures c.stat(path).StatFailed? ==> r == Some(Annotate(c.stat(path).err, "can't read file for resource " + Quote(name)))
  {
    match c.stat(path)
    case StatNotExist(err) => Some(Annotate(err, "file for resource " + Quote(name)))
    case StatFailed(err) => Some(Annotate(err, "can't read file for resource " + Quote(name)))
    case StatOk => None
  }

  /** The validation of one supplied value, by the type of its resource. */
  function DetailError(c: Collaborators, d: Uploader, name: string, value: string): (r: Option<Error>)
    ensures MetaFor(d, name).rtype == TypeUnknown ==> r == Some(Error(Other, "unknown resource: " + name))
    ensures MetaFor(d, name).rtype == TypeFile ==> r == CheckFile(c, name, value)
    ensures MetaFor(d, name).rtype == TypeContainerImage ==> r == c.checkDockerDetails(name, value)
  {
    match MetaFor(d, name).rtype
    case TypeFile => CheckFile(c, name, value)
    case TypeContainerImage => c.checkDockerDetails(name, value)
    case TypeUnknown => Some(Error(Other, "unknown resource: " + name))
  }

  /** validateResourceDetails: the first failing check, in walk order. */
  function ValidateResourceDetails(c: Collaborators, d: Uploader, values: map<string, string>, order: seq<string>)
    : (r: Option<Error>)
    requires forall n :: n in order ==> n in values
    ensures r.None? <==> forall i :: 0 <= i < |order| ==> DetailError(c, d, order[i], values[order[i]]).None?
    ensures r.Some? ==> exists i :: 0 <= i < |order| && r == DetailError(c, d, order[i], values[order[i]]) &&
                                    forall j :: 0 <= j < i ==> DetailError(c, d, order[j], values[order[j]]).None?
    decreases |order|
  {
    if |order| == 0 then None
    else
      var first := DetailError(c, d, order[0], values[order[0]]);
      if first.Some? then first
      else
        var rest := ValidateResourceDetails(c, d, values, order[1..]);
        assert forall i :: 1 <= i < |order| ==> order[i] == order[1..][i - 1];
        if rest.Some? then
          var i :| 0 <= i < |order[1..]| && rest == DetailError(c, d, order[1..][i], values[order[1..][i]]) &&
                   forall j :: 0 <= j < i ==> DetailError(c, d, order[1..][j], values[order[1..][j]]).None?;
          assert rest == DetailError(c, d, order[i + 1], values[order[i + 1]]);
          rest
        else rest
  }

  // ---------------------------------------------------------------------
  // charmStoreResources

  /** The store resource for one metadata entry: its revision if one was
      supplied, otherwise -1 (latest). */
  function StoreResource(d: Uploader, revisions: map<string, int>, k: string): Resource
    requires k in d.resources
  {
    Resource(d.resources[k], OriginStore, if k in revisions then revisions[k] else -1)
  }

  function StoreResourcesOf(d: Uploader, uploads: map<string, string>, revisions: map<string, int>, order: seq<string>)
    : (rs: seq<Resource>)
    requires forall k :: k in order ==> k in d.resources
    ensures |rs| <= |order|
    ensures forall r :: r in rs <==> exists k :: k in order && k !in uploads && r == StoreResource(d, revisions, k)
    decreases |order|
  {
    if |order| == 0 then []
    else
      var rest := StoreResourcesOf(d, uploads, revisions, order[1..]);
      (if order[0] in uploads then [] else [StoreResource(d, revisions, order[0])]) + rest
  }

  /** Which walked names have no uploaded value. */
  function StoreFlags(uploads: map<string, string>, order: seq<string>): (f: seq<bool>)
    ensures |f| == |order|
  {
    seq(|order|, i requires 0 <= i < |order| => order[i] !in uploads)
  }

  /** The store resource each walked name would give. */
  function StoreImage(d: Uploader, revisions: map<string, int>, order: seq<string>): (img: seq<Resource>)
    requires forall k :: k in order ==> k in d.resources
    ensures |img| == |order|
  {
    seq(|order|, i requires 0 <= i < |order| => StoreResource(d, revisions, order[i]))
  }

  lemma {:induction false} StoreResourcesFrom(d: Uploader, uploads: map<string, string>, revisions: map<string, int>,
                                              order: seq<string>, i: nat)
    requires forall k :: k in order ==> k in d.resources
    requires i <= |order|
    ensures var rs := StoreResourcesOf(d, uploads, revisions, order[i..]);
            var ps := PositionsFrom(StoreFlags(uploads, order), i);
            |rs| == |ps| && forall k :: 0 <= k < |ps| ==> rs[k] == StoreImage(d, revisions, order)[ps[k]]
    decreases |order| - i
  {
    if i < |order| {
      StoreResourcesFrom(d, uploads, revisions, order, i + 1);
      var tail := order[i..];
      assert tail[0] == order[i] && tail[1..] == order[i + 1..];
      SelectStep(StoreImage(d, revisions, order), i, order[i] !in uploads,
                 StoreResourcesOf(d, uploads, revisions, tail), StoreResourcesOf(d, uploads, revisions, order[i + 1..]),
                 PositionsFrom(StoreFlags(uploads, order), i), PositionsFrom(StoreFlags(uploads, order), i + 1));
    }
  }

  /** One store resource per walked name without an uploaded value, in walk
      order. */
  lemma StoreResourcesExact(d: Uploader, uploads: map<string, string>, revisions: map<string, int>, order: seq<string>)
    requires forall k :: k in order ==> k in d.resources
    ensures var rs := StoreResourcesOf(d, uploads, revisions, order);
            var ps := Positions(StoreFlags(uploads, order));
            |rs| == |ps| && forall k :: 0 <= k < |ps| ==> rs[k] == StoreResource(d, revisions, order[ps[k]])
  {
    StoreResourcesFrom(d, uploads, revisions, order, 0);
    assert order[0..] == order;
  }

  /** charmStoreResources: every resource without an uploaded value comes
      from the store. */
  function CharmStoreResources(d: Uploader, uploads: map<string, string>, revisions: map<string, int>): (rs: seq<Resource>)
    requires UploaderWf(d)
    ensures forall r :: r in rs <==> exists k :: k in d.resources && k !in uploads && r == StoreResource(d, revisions, k)
    ensures forall r :: r in rs ==> r.origin == OriginStore
  {
    StoreResourcesOf(d, uploads, revisions, d.metaOrder)
  }

  // ---------------------------------------------------------------------
  // Uploading.

  /** uploadPendingResource: an upload-origin resource carrying the named
      resource's metadata. */
  function UploadCall(d: Uploader, name: string, value: string, data: Data): (call: Call)
    ensures call.UploadPendingResource? && call.resource.origin == OriginUpload
    ensures call.resource.meta == MetaFor(d, name) && call.filename == value && call.data == data
  {
    UploadPendingResource(d.applicationID, Resource(MetaFor(d, name), OriginUpload, 0), value, data)
  }

  /** What is streamed for a supplied value of a known type. */
  function DataFor(d: Uploader, name: string, value: string): Data {
    if MetaFor(d, name).rtype == TypeFile then FileContents(value) else DockerImageDetails(value)
  }

  datatype Uploaded = Uploaded(result: Result<map<string, string>>, calls: seq<Call>)

  /** The per-value upload: uploadFile opens the file first, and an
      open failure ends the upload before any client call;
      uploadDockerDetails streams the image details; other types are an
      error. */
  function UploadOne(c: Collaborators, d: Uploader, name: string, value: string): (u: (Result<string>, seq<Call>))
    ensures MetaFor(d, name).rtype == TypeUnknown ==> u == (Err(Error(Other, "unknown resource type to upload")), [])
    ensures MetaFor(d, name).rtype == TypeFile && c.open(value).Some? ==> u == (Err(c.open(value).value), [])
    ensures |u.1| <= 1
    ensures |u.1| == 1 ==> MetaFor(d, name).rtype != TypeUnknown && u.1[0] == UploadCall(d, name, value, DataFor(d, name, value))
    ensures |u.1| == 1 ==> u.0 == c.uploadPendingResource(u.1[0].resource, value, DataFor(d, name, value))
    ensures u.0.Ok? ==> |u.1| == 1
  {
    match MetaFor(d, name).rtype
    case TypeFile =>
      if c.open(value).Some? then (Err(c.open(value).value), [])
      else
        var call := UploadCall(d, name, value, FileContents(value));
        (c.uploadPendingResource(call.resource, value, FileContents(value)), [call])
    case TypeContainerImage =>
      var call := UploadCall(d, name, value, DockerImageDetails(value));
      (c.uploadPendingResource(call.resource, value, DockerImageDetails(value)), [call])
    case TypeUnknown =>
      (Err(Error(Other, "unknown resource type to upload")), [])
  }

  /** The upload loop over the supplied values, extending `pending`; the
      first failure ends it. */
  function UploadValues(c: Collaborators, d: Uploader, values: map<string, string>, order: seq<string>,
                        pending: map<string, string>): (u: Uploaded)
    requires forall n :: n in order ==> n in values
    ensures u.result.Ok? ==> u.result.value.Keys == pending.Keys + set n | n in order
    ensures u.result.Ok? ==> |u.calls| == |order|
    ensures |u.calls| <= |order|
    ensures forall j :: 0 <= j < |u.calls| ==>
              u.calls[j] == UploadCall(d, order[j], values[order[j]], DataFor(d, order[j], values[order[j]]))
    decreases |order|
  {
    if |order| == 0 then Uploaded(Ok(pending), [])
    else
      var name := order[0];
      var one := UploadOne(c, d, name, values[name]);
      match one.0
      case Err(err) => Uploaded(Err(err), one.1)
      case Ok(id) =>
        var rest := UploadValues(c, d, values, order[1..], pending[name := id]);
        assert forall j :: 1 <= j < |order| ==> order[j] == order[1..][j - 1];
        assert (set n | n in order) == {name} + set n | n in order[1..];
        Uploaded(rest.result, one.1 + rest.calls)
  }

  /** One turn of the upload loop: a successful upload of the first value
      adds its id and goes on with the rest. */
  lemma UploadValuesStep(c: Collaborators, d: Uploader, values: map<string, string>, order: seq<string>,
                         pending: map<string, string>)
    requires forall n :: n in order ==> n in values
    requires |order| > 0
    ensures var one := UploadOne(c, d, order[0], values[order[0]]);
            && (one.0.Err? ==> UploadValues(c, d, values, order, pending) == Uploaded(Err(one.0.error), one.1))
            && (one.0.Ok? ==>
                  var rest := UploadValues(c, d, values, order[1..], pending[order[0] := one.0.value]);
                  UploadValues(c, d, values, order, pending) == Uploaded(rest.result, one.1 + rest.calls))
  {
  }

  /** Every value of `order` uploads successfully. */
  predicate UploadsOk(c: Collaborators, d: Uploader, values: map<string, string>, order: seq<string>)
    requires forall n :: n in order ==> n in values
  {
    forall j :: 0 <= j < |order| ==> UploadOne(c, d, order[j], values[order[j]]).0.Ok?
  }

  /** The upload at position `i` is the first to fail, with `err`, and
      `ncalls` calls have been made by then, its own included. */
  predicate FirstUploadFailure(c: Collaborators, d: Uploader, values: map<string, string>, order: seq<string>,
                               i: nat, err: Error, ncalls: nat)
    requires forall n :: n in order ==> n in values
  {
    && i < |order|
    && UploadOne(c, d, order[i], values[order[i]]).0 == Err(err)
    && ncalls == i + |UploadOne(c, d, order[i], values[order[i]]).1|
    && UploadsOk(c, d, values, order[..i])
  }

  /** The outcome the upload loop promises for `order`: success iff every
      upload succeeds, and otherwise the error of the first failing upload
      after `ncalls` calls, those of the uploads up to and including it. */
  predicate UploadOutcome(c: Collaborators, d: Uploader, values: map<string, string>, order: seq<string>,
                          result: Result<map<string, string>>, ncalls: nat)
    requires forall n :: n in order ==> n in values
  {
    && (result.Ok? <==> UploadsOk(c, d, values, order))
    && (result.Err? ==> exists i :: 0 <= i < |order| && FirstUploadFailure(c, d, values, order, i, result.error, ncalls))
  }

  /** The upload loop has the promised outcome. */
  lemma {:induction false} UploadValuesOutcome(c: Collaborators, d: Uploader, values: map<string, string>,
                                               order: seq<string>, pending: map<string, string>)
    requires forall n :: n in order ==> n in values
    ensures var u := UploadValues(c, d, values, order, pending);
            UploadOutcome(c, d, values, order, u.result, |u.calls|)
    decreases |order|
  {
    if |order| > 0 && UploadOne(c, d, order[0], values[order[0]]).0.Ok? {
      var next := pending[order[0] := UploadOne(c, d, order[0], values[order[0]]).0.value];
      UploadValuesOutcome(c, d, values, order[1..], next);
      UploadValuesOutcomeStep(c, d, values, order, pending);
    } else {
      UploadValuesOutcomeStops(c, d, values, order, pending);
    }
  }

  /** An empty walk succeeds, and a failed first upload is the first
      failure. */
  lemma UploadValuesOutcomeStops(c: Collaborators, d: Uploader, values: map<string, string>,
                                 order: seq<string>, pending: map<string, string>)
    requires forall n :: n in order ==> n in values
    requires |order| == 0 || UploadOne(c, d, order[0], values[order[0]]).0.Err?
    ensures var u := UploadValues(c, d, values, order, pending);
            UploadOutcome(c, d, values, order, u.result, |u.calls|)
  {
    if |order| > 0 {
      var one := UploadOne(c, d, order[0], values[order[0]]);
      UploadValuesStep(c, d, values, order, pending);
      UploadsOkCons(c, d, values, order);
      assert FirstUploadFailure(c, d, values, order, 0, one.0.error, |one.1|);
    }
  }

  /** After a successful first upload, the loop's outcome is that of the
      rest of the walk. */
  lemma UploadValuesOutcomeStep(c: Collaborators, d: Uploader, values: map<string, string>,
                                order: seq<string>, pending: map<string, string>)
    requires forall n :: n in order ==> n in values
    requires |order| > 0 && UploadOne(c, d, order[0], values[order[0]]).0.Ok?
    requires var next := pending[order[0] := UploadOne(c, d, order[0], values[order[0]]).0.value];
             var rest := UploadValues(c, d, values, order[1..], next);
             UploadOutcome(c, d, values, order[1..], rest.result, |rest.calls|)
    ensures var u := UploadValues(c, d, values, order, pending);
            UploadOutcome(c, d, values, order, u.result, |u.calls|)
  {
    var next := pending[order[0] := UploadOne(c, d, order[0], values[order[0]]).0.value];
    var rest := UploadValues(c, d, values, order[1..], next);
    UploadValuesStep(c, d, values, order, pending);
    UploadOutcomeCons(c, d, values, order, rest.result, |rest.calls|);
  }

  /** After a successful first upload, the outcome of the rest is the
      outcome of the whole walk, with that upload's call added. */
  lemma UploadOutcomeCons(c: Collaborators, d: Uploader, values: map<string, string>, order: seq<string>,
                          result: Result<map<string, string>>, ncalls: nat)
    requires forall n :: n in order ==> n in values
    requires |order| > 0 && UploadOne(c, d, order[0], values[order[0]]).0.Ok?
    requires UploadOutcome(c, d, values, order[1..], result, ncalls)
    ensures UploadOutcome(c, d, values, order, result, ncalls + 1)
  {
    UploadsOkCons(c, d, values, order);
    if result.Err? {
      var i :| FirstUploadFailure(c, d, values, order[1..], i, result.error, ncalls);
      FirstUploadFailureCons(c, d, values, order, i, result.error, ncalls);
    }
  }

  /** A walk's uploads all succeed iff its first does and the rest's do. */
  lemma UploadsOkCons(c: Collaborators, d: Uploader, values: map<string, string>, order: seq<string>)
    requires forall n :: n in order ==> n in values
    requires |order| > 0
    ensures UploadsOk(c, d, values, order) <==>
              UploadOne(c, d, order[0], values[order[0]]).0.Ok? && UploadsOk(c, d, values, order[1..])
  {
    assert forall j :: 1 <= j < |order| ==> order[j] == order[1..][j - 1];
  }

  /** The first failure of the rest, after a successful first upload, is
      the first failure of the whole walk, one position and one call on. */
  lemma FirstUploadFailureCons(c: Collaborators, d: Uploader, values: map<string, string>, order: seq<string>,
                               i: nat, err: Error, ncalls: nat)
    requires forall n :: n in order ==> n in values
    requires |order| > 0 && UploadOne(c, d, order[0], values[order[0]]).0.Ok?
    requires FirstUploadFailure(c, d, values, order[1..], i, err, ncalls)
    ensures FirstUploadFailure(c, d, values, order, i + 1, err, ncalls + 1)
  {
    assert order[1..][i] == order[i + 1];
    assert order[..i + 1][1..] == order[1..][..i];
    UploadsOkCons(c, d, values, order[..i + 1]);
  }

  /** The pending map from the AddPendingResources ids: ids correspond to
      the store resources by position. */
  function PendingFromIds(store: seq<Resource>, ids: seq<string>): (p: map<string, string>)
    requires |ids| == |store|
    ensures p.Keys == set r | r in store :: r.meta.name
    decreases |store|
  {
    if |store| == 0 then map[]
    else PendingFromIds(store[..|store| - 1], ids[..|ids| - 1])[store[|store| - 1].meta.name := ids[|ids| - 1]]
  }

  /** With distinct names, each store resource maps to the id at its own
      position. */
  lemma {:induction false} PendingFromIdsByPosition(store: seq<Resource>, ids: seq<string>, i: nat)
    requires |ids| == |store| && i < |store|
    requires NamesDistinct(store)
    ensures PendingFromIds(store, ids)[store[i].meta.name] == ids[i]
    decreases |store|
  {
    if i < |store| - 1 {
      PendingFromIdsByPosition(store[..|store| - 1], ids[..|ids| - 1], i);
    }
  }

  /** The three validations of upload all pass. */
  predicate Validated(c: Collaborators, d: Uploader, values: map<string, string>, valueOrder: seq<string>,
                      revisions: map<string, int>, revisionOrder: seq<string>)
    requires UploaderWf(d)
    requires Enumerates(valueOrder, values.Keys) && Enumerates(revisionOrder, revisions.Keys)
  {
    && ValidateResources(c, d).None?
    && CheckExpectedResources(d, values, valueOrder, revisions, revisionOrder).None?
    && ValidateResourceDetails(c, d, values, valueOrder).None?
  }

  /** upload: the three validations in order, before any client call; then
      the store resources are added as pending (when there are any) and the
      supplied values uploaded one by one. Any failure yields no map. */
  function Upload(c: Collaborators, d: Uploader, values: map<string, string>, valueOrder: seq<string>,
                  revisions: map<string, int>, revisionOrder: seq<string>): (u: Uploaded)
    requires UploaderWf(d) && AddPendingOneToOne(c)
    requires Enumerates(valueOrder, values.Keys) && Enumerates(revisionOrder, revisions.Keys)
    ensures ValidateResources(c, d).Some? ==> u == Uploaded(Err(ValidateResources(c, d).value), [])
    ensures ValidateResources(c, d).None? &&
            CheckExpectedResources(d, values, valueOrder, revisions, revisionOrder).Some? ==>
              u == Uploaded(Err(CheckExpectedResources(d, values, valueOrder, revisions, revisionOrder).value), [])
    ensures ValidateResources(c, d).None? &&
            CheckExpectedResources(d, values, valueOrder, revisions, revisionOrder).None? &&
            ValidateResourceDetails(c, d, values, valueOrder).Some? ==>
              u == Uploaded(Err(ValidateResourceDetails(c, d, values, valueOrder).value), [])
    ensures (u.calls != [] || u.result.Ok?) ==> Validated(c, d, values, valueOrder, revisions, revisionOrder)
    ensures Validated(c, d, values, valueOrder, revisions, revisionOrder) ==> u == UploadAll(c, d, values, valueOrder, revisions)
  {
    var valid := ValidateResources(c, d);
    if valid.Some? then Uploaded(Err(valid.value), [])
    else
      var expected := CheckExpectedResources(d, values, valueOrder, revisions, revisionOrder);
      if expected.Some? then Uploaded(Err(expected.value), [])
      else
        var details := ValidateResourceDetails(c, d, values, valueOrder);
        if details.Some? then Uploaded(Err(details.value), [])
        else UploadAll(c, d, values, valueOrder, revisions)
  }

  /** What upload does once the validations have passed: the store
      resources are added as pending in one call, when there are any, and
      then every supplied value is uploaded. */
  function UploadAll(c: Collaborators, d: Uploader, values: map<string, string>, valueOrder: seq<string>,
                     revisions: map<string, int>): (u: Uploaded)
    requires UploaderWf(d) && AddPendingOneToOne(c)
    requires Enumerates(valueOrder, values.Keys)
    ensures var store := CharmStoreResources(d, values, revisions);
            |store| > 0 && c.addPendingResources(store).Err? ==>
              u == Uploaded(Err(c.addPendingResources(store).error), [AddPendingResources(d.applicationID, store)])
    ensures var store := CharmStoreResources(d, values, revisions);
            |store| > 0 ==> |u.calls| > 0 && u.calls[0] == AddPendingResources(d.applicationID, store)
  {
    var store := CharmStoreResources(d, values, revisions);
    if |store| == 0 then UploadValues(c, d, values, valueOrder, map[])
    else
      var added := AddPendingResources(d.applicationID, store);
      match c.addPendingResources(store)
      case Err(err) => Uploaded(Err(err), [added])
      case Ok(ids) =>
        var rest := UploadValues(c, d, values, valueOrder, PendingFromIds(store, ids));
        Uploaded(rest.result, [added] + rest.calls)
  }

  /** Once the store resources are pending (or there are none), upload
      succeeds iff every value uploads, and otherwise fails with the first
      failing upload's error after the calls up to it. */
  lemma UploadAllOutcome(c: Collaborators, d: Uploader, values: map<string, string>, valueOrder: seq<string>,
                         revisions: map<string, int>)
    requires UploaderWf(d) && AddPendingOneToOne(c)
    requires Enumerates(valueOrder, values.Keys)
    ensures var store := CharmStoreResources(d, values, revisions);
            var u := UploadAll(c, d, values, valueOrder, revisions);
            var added := if |store| == 0 then 0 else 1;
            (|store| == 0 || c.addPendingResources(store).Ok?) ==>
              |u.calls| >= added && UploadOutcome(c, d, values, valueOrder, u.result, |u.calls| - added)
  {
    var store := CharmStoreResources(d, values, revisions);
    if |store| == 0 {
      UploadAllNoStore(c, d, values, valueOrder, revisions);
    } else if c.addPendingResources(store).Ok? {
      UploadAllPending(c, d, values, valueOrder, revisions);
    }
  }

  /** Without store resources, upload is the upload loop from an empty
      pending map. */
  lemma UploadAllNoStore(c: Collaborators, d: Uploader, values: map<string, string>, valueOrder: seq<string>,
                         revisions: map<string, int>)
    requires UploaderWf(d) && AddPendingOneToOne(c)
    requires Enumerates(valueOrder, values.Keys)
    requires |CharmStoreResources(d, values, revisions)| == 0
    ensures var u := UploadAll(c, d, values, valueOrder, revisions);
            UploadOutcome(c, d, values, valueOrder, u.result, |u.calls|)
  {
    UploadValuesOutcome(c, d, values, valueOrder, map[]);
  }

  /** With store resources made pending, upload is the AddPendingResources
      call followed by the upload loop. */
  lemma UploadAllPending(c: Collaborators, d: Uploader, values: map<string, string>, valueOrder: seq<string>,
                         revisions: map<string, int>)
    requires UploaderWf(d) && AddPendingOneToOne(c)
    requires Enumerates(valueOrder, values.Keys)
    requires var store := CharmStoreResources(d, values, revisions);
             |store| > 0 && c.addPendingResources(store).Ok?
    ensures var u := UploadAll(c, d, values, valueOrder, revisions);
            |u.calls| >= 1 && UploadOutcome(c, d, values, valueOrder, u.result, |u.calls| - 1)
  {
    var store := CharmStoreResources(d, values, revisions);
    var pending := PendingFromIds(store, c.addPendingResources(store).value);
    UploadValuesOutcome(c, d, values, valueOrder, pending);
  }

  /** Once the three validations pass, upload fails with the
      AddPendingResources error after that one call, or else succeeds iff
      every value uploads and otherwise fails at the first failing upload. */
  lemma UploadAfterValidation(c: Collaborators, d: Uploader, values: map<string, string>, valueOrder: seq<string>,
                              revisions: map<string, int>, revisionOrder: seq<string>)
    requires UploaderWf(d) && AddPendingOneToOne(c)
    requires Enumerates(valueOrder, values.Keys) && Enumerates(revisionOrder, revisions.Keys)
    requires Validated(c, d, values, valueOrder, revisions, revisionOrder)
    ensures var store := CharmStoreResources(d, values, revisions);
            var u := Upload(c, d, values, valueOrder, revisions, revisionOrder);
            |store| > 0 && c.addPendingResources(store).Err? ==>
              u == Uploaded(Err(c.addPendingResources(store).error), [AddPendingResources(d.applicationID, store)])
    ensures var store := CharmStoreResources(d, values, revisions);
            var u := Upload(c, d, values, valueOrder, revisions, revisionOrder);
            var added := if |store| == 0 then 0 else 1;
            (|store| == 0 || c.addPendingResources(store).Ok?) ==>
              |u.calls| >= added && UploadOutcome(c, d, values, valueOrder, u.result, |u.calls| - added)
  {
    UploadAllOutcome(c, d, values, valueOrder, revisions);
  }

  /** On success the result maps every store resource and every supplied
      value: its keys are the store resources' names plus the supplied
      names. */
  lemma UploadKeys(c: Collaborators, d: Uploader, values: map<string, string>, valueOrder: seq<string>,
                   revisions: map<string, int>, revisionOrder: seq<string>)
    requires UploaderWf(d) && AddPendingOneToOne(c)
    requires Enumerates(valueOrder, values.Keys) && Enumerates(revisionOrder, revisions.Keys)
    requires Upload(c, d, values, valueOrder, revisions, revisionOrder).result.Ok?
    ensures Upload(c, d, values, valueOrder, revisions, revisionOrder).result.value.Keys ==
              (set r | r in CharmStoreResources(d, values, revisions) :: r.meta.name) + values.Keys
  {
    assert Validated(c, d, values, valueOrder, revisions, revisionOrder);
    UploadAllKeys(c, d, values, valueOrder, revisions);
  }

  lemma UploadAllKeys(c: Collaborators, d: Uploader, values: map<string, string>, valueOrder: seq<string>,
                      revisions: map<string, int>)
    requires UploaderWf(d) && AddPendingOneToOne(c)
    requires Enumerates(valueOrder, values.Keys)
    requires UploadAll(c, d, values, valueOrder, revisions).result.Ok?
    ensures UploadAll(c, d, values, valueOrder, revisions).result.value.Keys ==
              (set r | r in CharmStoreResources(d, values, revisions) :: r.meta.name) + values.Keys
  {
    assert (set n | n in valueOrder) == values.Keys;
  }

  /** The calls of a successful upload: one AddPendingResources call for
      the store resources, when there are any, then one upload per supplied
      value, in walk order, as an upload-origin resource with its own
      metadata. */
  predicate UploadCallsShape(d: Uploader, values: map<string, string>, valueOrder: seq<string>,
                             revisions: map<string, int>, calls: seq<Call>)
    requires UploaderWf(d)
  {
    var store := CharmStoreResources(d, values, revisions);
    var skip := if |store| == 0 then 0 else 1;
    && |calls| >= skip
    && (skip == 1 ==> calls[0] == AddPendingResources(d.applicationID, store))
    && UploadsInOrder(d, values, valueOrder, calls[skip..])
  }

  /** One upload call per value of `order`, in that order, as an
      upload-origin resource with the value's own metadata. */
  predicate UploadsInOrder(d: Uploader, values: map<string, string>, order: seq<string>, calls: seq<Call>) {
    && |calls| == |order|
    && forall j :: 0 <= j < |order| ==>
         && order[j] in d.resources && order[j] in values
         && calls[j].UploadPendingResource? && calls[j].resource.origin == OriginUpload
         && calls[j].resource.meta == d.resources[order[j]] && calls[j].filename == values[order[j]]
  }

  /** Every supplied value is uploaded exactly once, in walk order, as an
      upload-origin resource with its own metadata, after at most one
      AddPendingResources call for the store resources. */
  lemma UploadCalls(c: Collaborators, d: Uploader, values: map<string, string>, valueOrder: seq<string>,
                    revisions: map<string, int>, revisionOrder: seq<string>)
    requires UploaderWf(d) && AddPendingOneToOne(c)
    requires Enumerates(valueOrder, values.Keys) && Enumerates(revisionOrder, revisions.Keys)
    requires Upload(c, d, values, valueOrder, revisions, revisionOrder).result.Ok?
    ensures UploadCallsShape(d, values, valueOrder, revisions, Upload(c, d, values, valueOrder, revisions, revisionOrder).calls)
  {
    assert Validated(c, d, values, valueOrder, revisions, revisionOrder);
    assert CheckExpectedResources(d, values, valueOrder, revisions, revisionOrder).None?;
    assert forall n :: n in values ==> n in d.resources;
    UploadAllCalls(c, d, values, valueOrder, revisions);
  }

  lemma UploadAllCalls(c: Collaborators, d: Uploader, values: map<string, string>, valueOrder: seq<string>,
                       revisions: map<string, int>)
    requires UploaderWf(d) && AddPendingOneToOne(c)
    requires Enumerates(valueOrder, values.Keys)
    requires forall n :: n in values ==> n in d.resources
    requires UploadAll(c, d, values, valueOrder, revisions).result.Ok?
    ensures UploadCallsShape(d, values, valueOrder, revisions, UploadAll(c, d, values, valueOrder, revisions).calls)
  {
    var u := UploadAll(c, d, values, valueOrder, revisions);
    var store := CharmStoreResources(d, values, revisions);
    if |store| == 0 {
      UploadValuesCalls(c, d, values, valueOrder, map[]);
      assert u.calls[0..] == u.calls;
    } else {
      var ids := c.addPendingResources(store).value;
      var rest := UploadValues(c, d, values, valueOrder, PendingFromIds(store, ids));
      UploadValuesCalls(c, d, values, valueOrder, PendingFromIds(store, ids));
      assert u.calls == [AddPendingResources(d.applicationID, store)] + rest.calls;
      assert u.calls[1..] == rest.calls;
    }
  }

  /** A successful upload loop makes one upload call per value, in order. */
  lemma UploadValuesCalls(c: Collaborators, d: Uploader, values: map<string, string>, order: seq<string>,
                          pending: map<string, string>)
    requires forall n :: n in order ==> n in values && n in d.resources
    requires UploadValues(c, d, values, order, pending).result.Ok?
    ensures UploadsInOrder(d, values, order, UploadValues(c, d, values, order, pending).calls)
  {
    var rest := UploadValues(c, d, values, order, pending);
    forall j | 0 <= j < |order|
      ensures && rest.calls[j].UploadPendingResource? && rest.calls[j].resource.origin == OriginUpload
              && rest.calls[j].resource.meta == d.resources[order[j]] && rest.calls[j].filename == values[order[j]]
    {
      assert order[j] in d.resources;
    }
  }

  /** With metadata keyed by resource name, each store resource's id is
      the one AddPendingResources returned at its position. */
  lemma StoreIdsByPosition(c: Collaborators, d: Uploader, values: map<string, string>, valueOrder: seq<string>,
                           revisions: map<string, int>, revisionOrder: seq<string>, i: nat)
    requires UploaderWf(d) && AddPendingOneToOne(c)
    requires Enumerates(valueOrder, values.Keys) && Enumerates(revisionOrder, revisions.Keys)
    requires forall k :: k in d.resources ==> d.resources[k].name == k
    requires Upload(c, d, values, valueOrder, revisions, revisionOrder).result.Ok?
    requires i < |CharmStoreResources(d, values, revisions)|
    ensures var store := CharmStoreResources(d, values, revisions);
            c.addPendingResources(store).Ok? &&
            Upload(c, d, values, valueOrder, revisions, revisionOrder).result.value[store[i].meta.name] ==
              c.addPendingResources(store).value[i]
  {
    var store := CharmStoreResources(d, values, revisions);
    assert store == StoreResourcesOf(d, values, revisions, d.metaOrder);
    StoreResourcesDistinct(d, values, revisions, d.metaOrder);
    var ids := c.addPendingResources(store).value;
    PendingFromIdsByPosition(store, ids, i);
    var name := store[i].meta.name;
    assert name !in values by {
      assert store[i] in store;
    }
    UploadValuesKeeps(c, d, values, valueOrder, PendingFromIds(store, ids), name);
  }

  /** No two resources share a name. */
  predicate NamesDistinct(rs: seq<Resource>) {
    forall a, b :: 0 <= a < b < |rs| ==> rs[a].meta.name != rs[b].meta.name
  }

  lemma {:induction false} StoreResourcesDistinct(d: Uploader, uploads: map<string, string>, revisions: map<string, int>,
                                                  order: seq<string>)
    requires forall k :: k in order ==> k in d.resources
    requires forall a, b :: 0 <= a < b < |order| ==> order[a] != order[b]
    requires forall k :: k in d.resources ==> d.resources[k].name == k
    ensures NamesDistinct(StoreResourcesOf(d, uploads, revisions, order))
    decreases |order|
  {
    if |order| > 0 {
      StoreResourcesDistinct(d, uploads, revisions, order[1..]);
      var rest := StoreResourcesOf(d, uploads, revisions, order[1..]);
      forall r | r in rest ensures r.meta.name != order[0] {
        var k :| k in order[1..] && k !in uploads && r == StoreResource(d, revisions, k);
      }
      var head := if order[0] in uploads then [] else [StoreResource(d, revisions, order[0])];
      assert StoreResourcesOf(d, uploads, revisions, order) == head + rest;
      PrependDistinct(head, rest, order[0]);
    }
  }

  /** At most one resource named `name`, put before distinct resources of
      other names, keeps the names distinct. */
  lemma PrependDistinct(head: seq<Resource>, rest: seq<Resource>, name: string)
    requires |head| <= 1 && forall a :: 0 <= a < |head| ==> head[a].meta.name == name
    requires forall r :: r in rest ==> r.meta.name != name
    requires NamesDistinct(rest)
    ensures NamesDistinct(head + rest)
  {
    var rs := head + rest;
    forall a, b | 0 <= a < b < |rs| ensures rs[a].meta.name != rs[b].meta.name {
      if a < |head| {
        assert rs[a] == head[a] && rs[b] == rest[b - |head|] && rs[b] in rest;
      } else {
        assert rs[a] == rest[a - |head|] && rs[b] == rest[b - |head|];
      }
    }
  }

  /** Every name of `order` was uploaded successfully and `result` holds
      the id its upload returned. */
  predicate HoldsUploadIds(c: Collaborators, d: Uploader, values: map<string, string>, order: seq<string>,
                           result: map<string, string>)
    requires forall n :: n in order ==> n in values
  {
    forall j :: 0 <= j < |order| ==>
      && UploadOne(c, d, order[j], values[order[j]]).0.Ok?
      && order[j] in result
      && result[order[j]] == UploadOne(c, d, order[j], values[order[j]]).0.value
  }

  /** On success every supplied name maps to the id its own upload
      returned. */
  lemma {:induction false} UploadValuesIds(c: Collaborators, d: Uploader, values: map<string, string>, order: seq<string>,
                                           pending: map<string, string>)
    requires forall n :: n in order ==> n in values
    requires forall a, b :: 0 <= a < b < |order| ==> order[a] != order[b]
    requires UploadValues(c, d, values, order, pending).result.Ok?
    ensures HoldsUploadIds(c, d, values, order, UploadValues(c, d, values, order, pending).result.value)
    decreases |order|
  {
    if |order| > 0 {
      var name := order[0];
      var id := UploadOne(c, d, name, values[name]).0.value;
      var next := pending[name := id];
      UploadValuesFirst(c, d, values, order, pending);
      var result := UploadValues(c, d, values, order[1..], next).result.value;
      UploadValuesIds(c, d, values, order[1..], next);
      assert name !in order[1..] by {
        forall b | 0 <= b < |order[1..]| ensures order[1..][b] != name {
          assert order[1..][b] == order[b + 1];
        }
      }
      UploadValuesKeeps(c, d, values, order[1..], next, name);
      HoldsUploadIdsCons(c, d, values, order, result);
    }
  }

  /** The ids of the first name and of the rest together give the ids of
      the whole walk. */
  lemma HoldsUploadIdsCons(c: Collaborators, d: Uploader, values: map<string, string>, order: seq<string>,
                           result: map<string, string>)
    requires forall n :: n in order ==> n in values
    requires |order| > 0 && UploadOne(c, d, order[0], values[order[0]]).0.Ok?
    requires order[0] in result && result[order[0]] == UploadOne(c, d, order[0], values[order[0]]).0.value
    requires HoldsUploadIds(c, d, values, order[1..], result)
    ensures HoldsUploadIds(c, d, values, order, result)
  {
    forall j | 1 <= j < |order|
      ensures && UploadOne(c, d, order[j], values[order[j]]).0.Ok?
              && order[j] in result
              && result[order[j]] == UploadOne(c, d, order[j], values[order[j]]).0.value
    {
      assert order[j] == order[1..][j - 1];
    }
  }

  /** A successful loop uploaded its first value and went on from there
      with that value's id added. */
  lemma UploadValuesFirst(c: Collaborators, d: Uploader, values: map<string, string>, order: seq<string>,
                          pending: map<string, string>)
    requires forall n :: n in order ==> n in values
    requires |order| > 0 && UploadValues(c, d, values, order, pending).result.Ok?
    ensures UploadOne(c, d, order[0], values[order[0]]).0.Ok?
    ensures var id := UploadOne(c, d, order[0], values[order[0]]).0.value;
            UploadValues(c, d, values, order, pending).result ==
              UploadValues(c, d, values, order[1..], pending[order[0] := id]).result
  {
  }

  /** The upload loop leaves entries of names it does not visit alone. */
  lemma {:induction false} UploadValuesKeeps(c: Collaborators, d: Uploader, values: map<string, string>, order: seq<string>,
                                             pending: map<string, string>, name: string)
    requires forall n :: n in order ==> n in values
    requires name in pending && name !in order
    requires UploadValues(c, d, values, order, pending).result.Ok?
    ensures UploadValues(c, d, values, order, pending).result.value[name] == pending[name]
    decreases |order|
  {
    if |order| > 0 {
      var one := UploadOne(c, d, order[0], values[order[0]]);
      UploadValuesKeeps(c, d, values, order[1..], pending[order[0] := one.0.value], name);
    }
  }
}
