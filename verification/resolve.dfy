/** Parameter resolution at dispatch time: the job's declared parameters merged with
    the extra ones, each value resolved in order; the first failure is thrown. */
module Resolve {
  import opened Results
  import opened Values
  import opened PhpArrays
  import opened Chains
  import opened Readiness

  /** `getParam`. A plain value passes through. A tag whose leading word is `job`
      yields the whole stored response of the job its first further word names
      (the field selector the source reads is never defined, so no projection
      happens); with no further word the key is null and the typed call throws.
      Every other tag, `param` included, throws "Unhandled tag". */
  function GetParam(c: Chain, s: Store, p: Param): (r: Result<Value, ChainError>)
    ensures p.Plain? ==> r == Success(p.v)
    ensures r.Failure? ==> r.error.UnhandledTag? || r.error == MissingJobKey
    ensures p.Tagged? && !IsJobRef(c, p) ==> r == Failure(UnhandledTag(c.split(p.tag).name, p.value))
    ensures IsJobRef(c, p) ==> (r.Success? <==> |c.split(p.tag).args| > 0)
    ensures IsJobRef(c, p) && r.Success? ==>
      && (HasResponse(c, s, c.split(p.tag).args[0]) ==> r.value == s[ResponseKey(c, c.split(p.tag).args[0])])
      && (!HasResponse(c, s, c.split(p.tag).args[0]) ==> r.value == Null)
  {
    match p
    case Plain(v) => Success(v)
    case Tagged(tag, value) =>
      var parts := c.split(tag);
      if parts.name == "job" then
        if |parts.args| == 0 then Failure(MissingJobKey)
        else Success(StoreGet(s, ResponseKey(c, parts.args[0])))
      else Failure(UnhandledTag(parts.name, value))
  }

  /** Resolving every entry of an array in order, stopping at the first exception. */
  function ResolveAll(c: Chain, s: Store, d: Dict<Param>): (r: Result<Dict<Value>, ChainError>)
    ensures r.Success? <==> forall i :: 0 <= i < |d| ==> GetParam(c, s, d[i].1).Success?
    ensures r.Success? ==>
      && |r.value| == |d|
      && forall i :: 0 <= i < |d| ==> r.value[i] == (d[i].0, GetParam(c, s, d[i].1).value)
    ensures r.Failure? ==> exists i ::
      && 0 <= i < |d|
      && GetParam(c, s, d[i].1) == Failure(r.error)
      && forall j :: 0 <= j < i ==> GetParam(c, s, d[j].1).Success?
    decreases |d|
  {
    if |d| == 0 then Success([])
    else
      var v :- GetParam(c, s, d[0].1);
      TailDistinct(d);
      var rest :- ResolveAll(c, s, d[1..]);
      ConsSameKeys(d, v, rest);
      Success([(d[0].0, v)] + rest)
  }

  /** A lookup in the resolved array gives the resolution of the lookup in the template. */
  lemma ResolvedGet(c: Chain, s: Store, d: Dict<Param>, k: string)
    requires ResolveAll(c, s, d).Success?
    ensures Get(ResolveAll(c, s, d).value, k)
         == if k in Keys(d) then Some(GetParam(c, s, Get(d, k).value).value) else None
  {
    var r := ResolveAll(c, s, d).value;
    assert Keys(r) == Keys(d);
    if k in Keys(d) {
      var i :| 0 <= i < |d| && Keys(d)[i] == k;
      GetAt(d, i);
      GetAt(r, i);
    }
  }

  /** `getJobParams`: the job's parameters merged with the extra ones (extra values
      win), then resolved. */
  function GetJobParams(c: Chain, s: Store, job: JobSpec, extra: Dict<Param>): Result<Dict<Value>, ChainError> {
    ResolveAll(c, s, Merge(job.params, extra))
  }

  /** The run inputs as parameter templates: all plain. */
  function Lift(inputs: Dict<Value>): (r: Dict<Param>)
    ensures |r| == |inputs|
    ensures forall i :: 0 <= i < |inputs| ==> r[i] == (inputs[i].0, Plain(inputs[i].1))
  {
    var r := seq(|inputs|, i requires 0 <= i < |inputs| => (inputs[i].0, Plain(inputs[i].1)));
    assert Keys(r) == Keys(inputs);
    r
  }

  lemma LiftGet(inputs: Dict<Value>, k: string)
    ensures Get(Lift(inputs), k) == if k in Keys(inputs) then Some(Plain(Get(inputs, k).value)) else None
  {
    assert Keys(Lift(inputs)) == Keys(inputs);
    if k in Keys(inputs) {
      var i :| 0 <= i < |inputs| && Keys(inputs)[i] == k;
      GetAt(inputs, i);
      GetAt(Lift(inputs), i);
    }
  }

  /** Every run input reaches the dispatched job under its own name with its own
      value, overriding a same-named declared parameter (the run passes the merged
      array, which is merged with the declared parameters once more). */
  lemma InputsOverride(c: Chain, s: Store, job: JobSpec, inputs: Dict<Value>, k: string)
    requires GetJobParams(c, s, job, Merge(job.params, Lift(inputs))).Success?
    requires k in Keys(inputs)
    ensures Get(GetJobParams(c, s, job, Merge(job.params, Lift(inputs))).value, k) == Get(inputs, k)
  {
    MergeAbsorbs(job.params, Lift(inputs));
    var m := Merge(job.params, Lift(inputs));
    LiftGet(inputs, k);
    MergeGet(job.params, Lift(inputs), k);
    MergeKeys(job.params, Lift(inputs));
    ResolvedGet(c, s, m, k);
  }

  /** A declared plain value that no extra parameter overrides reaches the job unchanged. */
  lemma UntaggedPassThrough(c: Chain, s: Store, job: JobSpec, extra: Dict<Param>, k: string, v: Value)
    requires GetJobParams(c, s, job, extra).Success?
    requires Get(job.params, k) == Some(Plain(v)) && k !in Keys(extra)
    ensures Get(GetJobParams(c, s, job, extra).value, k) == Some(v)
  {
    MergeGet(job.params, extra, k);
    MergeKeys(job.params, extra);
    ResolvedGet(c, s, Merge(job.params, extra), k);
  }

  /** A tag that does not lead with `job` and reaches resolution makes the whole
      resolution throw; the thrown error is always a tag error. */
  lemma UnhandledTagThrows(c: Chain, s: Store, job: JobSpec, extra: Dict<Param>, k: string)
    requires Get(Merge(job.params, extra), k).Some?
    requires Get(Merge(job.params, extra), k).value.Tagged?
    requires !IsJobRef(c, Get(Merge(job.params, extra), k).value)
    ensures GetJobParams(c, s, job, extra).Failure?
    ensures GetJobParams(c, s, job, extra).error.UnhandledTag?
         || GetJobParams(c, s, job, extra).error == MissingJobKey
  {
    var m := Merge(job.params, extra);
    var i :| 0 <= i < |m| && Keys(m)[i] == k;
    GetAt(m, i);
    assert GetParam(c, s, m[i].1).Failure?;
    var r := ResolveAll(c, s, m);
    assert r.Failure?;
    var j :| 0 <= j < |m| && GetParam(c, s, m[j].1) == Failure(r.error);
  }

  /** For a job with no `job` tag among its parameters, the run's resolution
      succeeds exactly when every tagged parameter is overridden by a run input of
      the same name: a `param` tag is never resolved from the inputs itself. */
  lemma RootParamsResolve(c: Chain, s: Store, job: JobSpec, inputs: Dict<Value>)
    requires forall i :: 0 <= i < |job.params| ==> !IsJobRef(c, job.params[i].1)
    ensures GetJobParams(c, s, job, Merge(job.params, Lift(inputs))).Success?
        <==> forall i :: 0 <= i < |job.params| && job.params[i].1.Tagged? ==> job.params[i].0 in Keys(inputs)
  {
    var a := job.params;
    var l := Lift(inputs);
    MergeAbsorbs(a, l);
    var m := Merge(a, l);
    MergeLonger(a, l);
    assert GetJobParams(c, s, job, m) == ResolveAll(c, s, m);
    forall i | 0 <= i < |m|
      ensures GetParam(c, s, m[i].1).Success? <==>
        (i < |a| ==> (a[i].1.Tagged? ==> a[i].0 in Keys(inputs)))
    {
      RootParamAt(c, s, a, inputs, i);
    }
    ResolvesWhenOverridden(c, s, m, a, inputs);
  }

  lemma ResolvesWhenOverridden(c: Chain, s: Store, m: Dict<Param>, a: Dict<Param>, inputs: Dict<Value>)
    requires |m| >= |a|
    requires forall i :: 0 <= i < |m| ==> (GetParam(c, s, m[i].1).Success? <==>
        (i < |a| ==> (a[i].1.Tagged? ==> a[i].0 in Keys(inputs))))
    ensures ResolveAll(c, s, m).Success?
        <==> forall i :: 0 <= i < |a| && a[i].1.Tagged? ==> a[i].0 in Keys(inputs)
  {
  }

  /** One entry of the merged array of a root job resolves exactly when it is plain
      or overridden by an input. */
  lemma RootParamAt(c: Chain, s: Store, a: Dict<Param>, inputs: Dict<Value>, i: nat)
    requires forall j :: 0 <= j < |a| ==> !IsJobRef(c, a[j].1)
    requires i < |Merge(a, Lift(inputs))|
    ensures GetParam(c, s, Merge(a, Lift(inputs))[i].1).Success? <==>
      (i < |a| ==> (a[i].1.Tagged? ==> a[i].0 in Keys(inputs)))
  {
    var l := Lift(inputs);
    MergeAt(a, l, i);
    if i < |a| {
      LiftGet(inputs, a[i].0);
    } else {
      var j :| 0 <= j < |l| && l[j] == Merge(a, l)[i];
    }
  }
}
