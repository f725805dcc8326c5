/** Error values and result wrappers shared by every module of the model.

    The source classifies errors with the juju/errors predicates
    (IsNotFound, IsNotValid, IsNotProvisioned, ...); a `Kind` stands for
    that class and `message` for the text `Error()` would print.
    `errors.Trace` and `errors.Annotate` keep the cause, so a traced error
    is modelled by the error itself. */
module Errors {

  datatype Kind = NotFound | NotProvisioned | NotValid | Perm | Other

  datatype Error = Error(kind: Kind, message: string)

  datatype Option<+T> = None | Some(value: T)

  datatype Result<+T> = Ok(value: T) | Err(error: Error) {

    predicate IsFailure() {
      Err?
    }

    function PropagateFailure<U>(): Result<U>
      requires Err?
    {
      Err(error)
    }

    function Extract(): T
      requires Ok?
    {
      value
    }
  }

  /** errors.NotValidf("<what>"): the message gains the " not valid" suffix. */
  function NotValidf(what: string): Error {
    Error(NotValid, what + " not valid")
  }

  /** errors.NotFoundf("<what>"): the message gains the " not found" suffix. */
  function NotFoundf(what: string): Error {
    Error(NotFound, what + " not found")
  }

  /** Go's %q for the plain names used in this model (no escaping needed). */
  function Quote(s: string): string {
    "\"" + s + "\""
  }

  /** strings.Join(parts, sep). */
  function Join(parts: seq<string>, sep: string): string
    decreases |parts|
  {
    if |parts| == 0 then ""
    else if |parts| == 1 then parts[0]
    else parts[0] + sep + Join(parts[1..], sep)
  }

  /** A loop that stops at the first failing step: every value, in
      order, when all steps succeed, and otherwise the first failure. */
  function AllOk<T>(rs: seq<Result<T>>): (r: Result<seq<T>>)
    ensures r.Ok? <==> forall i :: 0 <= i < |rs| ==> rs[i].Ok?
    ensures r.Ok? ==> |r.value| == |rs| && forall i :: 0 <= i < |rs| ==> r.value[i] == rs[i].value
    ensures r.Err? ==> exists i :: 0 <= i < |rs| && rs[i] == Err(r.error) && forall j :: 0 <= j < i ==> rs[j].Ok?
    decreases |rs|
  {
    if |rs| == 0 then Ok([])
    else
      match rs[0]
      case Err(err) => Err(err)
      case Ok(v) =>
        var rest := AllOk(rs[1..]);
        assert forall i :: 1 <= i < |rs| ==> rs[i] == rs[1..][i - 1];
        if rest.Err? then
          var i :| 0 <= i < |rs[1..]| && rs[1..][i] == Err(rest.error) && forall j :: 0 <= j < i ==> rs[1..][j].Ok?;
          assert rs[i + 1] == Err(rest.error);
          Err(rest.error)
        else Ok([v] + rest.value)
  }

  /** The positions of the true entries of `flags`, in increasing order:
      the iterations of a loop over `flags` that take the guarded branch. */
  function Positions(flags: seq<bool>): (ps: seq<nat>)
    ensures forall k :: 0 <= k < |ps| ==> ps[k] < |flags| && flags[ps[k]]
    ensures forall k, l :: 0 <= k < l < |ps| ==> ps[k] < ps[l]
    ensures forall i :: 0 <= i < |flags| && flags[i] ==> i in ps
  {
    PositionsFrom(flags, 0)
  }

  /** The positions of the true entries at or after `i`, in increasing order. */
  function PositionsFrom(flags: seq<bool>, i: nat): (ps: seq<nat>)
    requires i <= |flags|
    ensures forall k :: 0 <= k < |ps| ==> i <= ps[k] < |flags| && flags[ps[k]]
    ensures forall k, l :: 0 <= k < l < |ps| ==> ps[k] < ps[l]
    ensures forall j :: i <= j < |flags| && flags[j] ==> j in ps
    decreases |flags| - i
  {
    if i == |flags| then []
    else (if flags[i] then [i] else []) + PositionsFrom(flags, i + 1)
  }

  /** A loop whose guard holds at position `j` only takes the branch once. */
  lemma {:induction false} PositionsOfOne(flags: seq<bool>, j: nat, i: nat)
    requires j < |flags| && flags[j]
    requires forall q :: 0 <= q < |flags| && q != j ==> !flags[q]
    requires i <= |flags|
    ensures PositionsFrom(flags, i) == if i <= j then [j] else []
    decreases |flags| - i
  {
    if i < |flags| {
      PositionsOfOne(flags, j, i + 1);
    }
  }

  /** One step of a loop that appends `img[i]` when `take` holds: if the
      later iterations append exactly the images of their selected
      positions, so does the loop from `i`. */
  lemma SelectStep<U>(img: seq<U>, i: nat, take: bool, u: seq<U>, rest: seq<U>, ps: seq<nat>, later: seq<nat>)
    requires i < |img|
    requires u == (if take then [img[i]] else []) + rest
    requires ps == (if take then [i] else []) + later
    requires |rest| == |later| && forall k :: 0 <= k < |later| ==> later[k] < |img| && rest[k] == img[later[k]]
    ensures |u| == |ps| && forall k :: 0 <= k < |ps| ==> ps[k] < |img| && u[k] == img[ps[k]]
  {
    var off := if take then 1 else 0;
    forall k | off <= k < |ps|
      ensures ps[k] < |img| && u[k] == img[ps[k]]
    {
      assert u[k] == rest[k - off] && ps[k] == later[k - off];
    }
  }

  /** The sequence lists every key of `keys` exactly once: what a Go
      `range` over a map with that key set visits, in some order. */
  predicate Enumerates<K(!new)>(order: seq<K>, keys: set<K>) {
    && (forall i, j :: 0 <= i < j < |order| ==> order[i] != order[j])
    && (forall k :: k in order ==> k in keys)
    && (forall k :: k in keys ==> k in order)
  }

  /** A sequence that enumerates a set is as long as the set is large. */
  lemma {:induction false} EnumeratesSize<K(!new)>(order: seq<K>, keys: set<K>)
    requires Enumerates(order, keys)
    ensures |order| == |keys|
    decreases |order|
  {
    if |order| > 0 {
      var rest := keys - {order[0]};
      assert Enumerates(order[1..], rest) by {
        forall k | k in order[1..] ensures k in rest {
          var i :| 1 <= i < |order| && order[i] == k;
        }
        forall k | k in rest ensures k in order[1..] {
          var i :| 0 <= i < |order| && order[i] == k;
          assert i != 0;
          assert order[1..][i - 1] == k;
        }
      }
      EnumeratesSize(order[1..], rest);
    } else {
      assert forall k :: k !in keys;
      assert keys == {};
    }
  }
}
