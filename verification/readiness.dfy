/** The readiness test the engine applies to each declared job after a completion:
    not yet dispatched, and every job named by a `job`-tagged `data` entry has a
    stored response. */
module Readiness {
  import opened Results
  import opened Values
  import opened PhpArrays
  import opened Chains

  /** The job's dispatched flag is set (only a truthy key has a flag). */
  predicate Flagged(c: Chain, s: Store, key: string) {
    StrTruthy(key) && Truthy(StoreGet(s, DispatchedKey(c, key)))
  }

  /** `isDone`: the run's completion latch is set. */
  predicate IsDone(c: Chain, s: Store) {
    Truthy(StoreGet(s, LatchKey(c)))
  }

  /** `hasResponse`: a non-null response is stored for the job. */
  predicate HasResponse(c: Chain, s: Store, key: string) {
    StoreHas(s, ResponseKey(c, key))
  }

  /** `wasDispatched`: reading the flag needs its cache key, which cannot be formed
      for a falsy job key, so for those it throws. */
  function WasDispatched(c: Chain, s: Store, key: string): (r: Result<bool, ChainError>)
    ensures r.Failure? <==> !StrTruthy(key)
    ensures r.Failure? ==> r.error == SuffixWithoutKey
    ensures r.Success? ==> (r.value <==> Flagged(c, s, key))
  {
    var flag :- CacheKey(c, key, "dispatched");
    Success(Truthy(StoreGet(s, flag)))
  }

  /** The values of the `data` entries whose tag is exactly `job`, in order. */
  function JobRefs(data: seq<Param>): (refs: seq<string>)
    ensures forall v :: v in refs <==> Tagged("job", v) in data
    decreases |data|
  {
    if |data| == 0 then []
    else
      assert data == [data[0]] + data[1..];
      (if data[0].Tagged? && data[0].tag == "job" then [data[0].value] else []) + JobRefs(data[1..])
  }

  /** The collection `search` for a referenced job without a response: its position,
      or none when every referenced job has one. */
  function FirstUnmet(c: Chain, s: Store, refs: seq<string>): (r: Option<nat>)
    ensures r.Some? ==>
      && r.value < |refs|
      && !HasResponse(c, s, refs[r.value])
      && forall j :: 0 <= j < r.value ==> HasResponse(c, s, refs[j])
    ensures r.None? <==> forall j :: 0 <= j < |refs| ==> HasResponse(c, s, refs[j])
    decreases |refs|
  {
    if |refs| == 0 then None
    else if !HasResponse(c, s, refs[0]) then Some(0)
    else match FirstUnmet(c, s, refs[1..])
      case None => None
      case Some(n) => Some(n + 1)
  }

  /** `dependenciesMet`: no `job`-tagged `data` entry names a job without a response. */
  predicate DependenciesMet(c: Chain, s: Store, job: JobSpec) {
    FirstUnmet(c, s, JobRefs(job.data)).None?
  }

  /** The search finds nothing exactly when every job named by a `job`-tagged `data`
      entry has a stored response; the job's `params` play no part. */
  lemma DependenciesMetIff(c: Chain, s: Store, job: JobSpec)
    ensures DependenciesMet(c, s, job)
        <==> forall v :: Tagged("job", v) in job.data ==> HasResponse(c, s, v)
  {
    var refs := JobRefs(job.data);
    assert forall v :: v in refs ==> exists j :: 0 <= j < |refs| && refs[j] == v;
  }

  /** The job is ready: not yet flagged and its dependencies are met. */
  predicate IsReady(c: Chain, s: Store, key: string, job: JobSpec) {
    !Flagged(c, s, key) && DependenciesMet(c, s, job)
  }

  /** `shouldDispatch`: not yet dispatched and dependencies met; the flag is read
      first, so a falsy key throws before the dependencies are looked at. */
  function ShouldDispatch(c: Chain, s: Store, key: string, job: JobSpec): (r: Result<bool, ChainError>)
    ensures r.Failure? <==> !StrTruthy(key)
    ensures r.Success? ==>
      (r.value <==> !Flagged(c, s, key) && forall v :: Tagged("job", v) in job.data ==> HasResponse(c, s, v))
  {
    DependenciesMetIff(c, s, job);
    var dispatched :- WasDispatched(c, s, key);
    Success(!dispatched && DependenciesMet(c, s, job))
  }
}
