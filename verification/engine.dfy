/** The dispatch engine: `dispatchJob`, `run` and `done` as pure steps from a cache
    to a new cache, the events fired and the jobs dispatched, in order. An
    exception ends a step early; whatever it wrote, fired or dispatched before
    the exception stays. */
module Engine {
  import opened Results
  import opened Values
  import opened PhpArrays
  import opened Chains
  import opened Readiness
  import opened Resolve

  /** The broadcast events: a stored response, the chain's completion, a job's error. */
  datatype Event =
    | ResponseEvent(key: string, response: Value)
    | DoneEvent(key: string, response: Value)
    | ErrorEvent(key: string, error: Value)

  /** A job handed to the queue: its key, its class with the namespace applied, and
      its resolved constructor parameters. */
  datatype Dispatch = Dispatch(key: string, jobType: string, params: Dict<Value>)

  /** What one call leaves behind, and the exception that ended it, if any. */
  datatype Outcome = Outcome(store: Store, events: seq<Event>, dispatched: seq<Dispatch>, failure: Option<ChainError>)

  /** What a sequence of dispatches leaves behind. */
  datatype Progress = Progress(store: Store, dispatched: seq<Dispatch>, failure: Option<ChainError>)

  /** The keys of the dispatched jobs, in dispatch order. */
  function DispatchKeys(ds: seq<Dispatch>): (ks: seq<string>)
    ensures |ks| == |ds|
    ensures forall i :: 0 <= i < |ds| ==> ks[i] == ds[i].key
    decreases |ds|
  {
    if |ds| == 0 then [] else [ds[0].key] + DispatchKeys(ds[1..])
  }

  /** The flag keys of the given job keys. */
  function FlagKeys(c: Chain, ks: seq<string>): set<string> {
    set k | k in ks :: DispatchedKey(c, k)
  }

  /** The class to instantiate: prefixed by the namespace when that is truthy. */
  function QualifiedType(c: Chain, job: JobSpec): (t: string)
    ensures t == job.jobType <==> !StrTruthy(c.namespace)
    ensures StrTruthy(c.namespace) ==>
      && |t| == |c.namespace| + 1 + |job.jobType|
      && t[..|c.namespace|] == c.namespace
      && t[|c.namespace|] == '\\'
      && t[|c.namespace| + 1..] == job.jobType
  {
    if StrTruthy(c.namespace) then c.namespace + "\\" + job.jobType else job.jobType
  }

  /** `dispatchJob`, cache part: the parameters are resolved first, then the
      dispatched flag is written; an exception in either step leaves the cache as it was. */
  function DispatchJob(c: Chain, s: Store, key: string, job: JobSpec, extra: Dict<Param>): (r: Result<(Store, Dispatch), ChainError>)
    ensures r.Success? <==> GetJobParams(c, s, job, extra).Success? && StrTruthy(key)
    ensures GetJobParams(c, s, job, extra).Failure? ==> r == Failure(GetJobParams(c, s, job, extra).error)
    ensures r.Success? ==>
      && r.value.0 == s[DispatchedKey(c, key) := Int(1)]
      && r.value.1.key == key
      && r.value.1.jobType == QualifiedType(c, job)
      && r.value.1.params == GetJobParams(c, s, job, extra).value
  {
    var params :- GetJobParams(c, s, job, extra);
    var flag :- CacheKey(c, key, "dispatched");
    Success((s[flag := Int(1)], Dispatch(key, QualifiedType(c, job), params)))
  }

  /** Writing a flag keeps every flag that was set, and sets the new one. */
  lemma SetFlagKeepsFlags(c: Chain, s: Store, key: string)
    requires StrTruthy(key)
    ensures Flagged(c, s[DispatchedKey(c, key) := Int(1)], key)
    ensures forall k :: Flagged(c, s, k) ==> Flagged(c, s[DispatchedKey(c, key) := Int(1)], k)
  {
  }

  /** What the scan of a job's parameters in `run` concludes. */
  datatype ScanResult = Root | Dependent | Missing(name: string)

  /** The scan in `run`: parameters in order; a `param` tag without default naming an
      absent input throws; the first `job` tag marks the job as dependent and ends
      the scan. */
  function Scan(c: Chain, params: seq<(string, Param)>, inputs: Dict<Value>): (r: ScanResult)
    ensures r == Root <==>
      forall i :: 0 <= i < |params| ==> !IsJobRef(c, params[i].1) && !NeedsInput(c, inputs, params[i].1)
    ensures r.Missing? ==> exists i ::
      && 0 <= i < |params|
      && NeedsInput(c, inputs, params[i].1)
      && params[i].1.value == r.name
      && forall j :: 0 <= j < i ==> !IsJobRef(c, params[j].1) && !NeedsInput(c, inputs, params[j].1)
    ensures r == Dependent ==> exists i ::
      && 0 <= i < |params|
      && IsJobRef(c, params[i].1)
      && forall j :: 0 <= j < i ==> !IsJobRef(c, params[j].1) && !NeedsInput(c, inputs, params[j].1)
    decreases |params|, 1
  {
    if |params| == 0 then Root
    else
      match params[0].1
      case Plain(_) =>
        ScanSkip(c, params, inputs);
        Scan(c, params[1..], inputs)
      case Tagged(tag, value) =>
        var parts := c.split(tag);
        if parts.name == "param" && !ArrHas(inputs, value) && |parts.args| == 0 then Missing(value)
        else if parts.name == "job" then Dependent
        else
          ScanSkip(c, params, inputs);
          Scan(c, params[1..], inputs)
  }

  /** Past a parameter that neither refers to a job nor lacks its input, the scan's
      findings about the rest hold of the whole list. */
  lemma ScanSkip(c: Chain, params: seq<(string, Param)>, inputs: Dict<Value>)
    requires |params| > 0 && !IsJobRef(c, params[0].1) && !NeedsInput(c, inputs, params[0].1)
    ensures var r := Scan(c, params[1..], inputs);
      && (r == Root <==>
            forall i :: 0 <= i < |params| ==> !IsJobRef(c, params[i].1) && !NeedsInput(c, inputs, params[i].1))
      && (r.Missing? ==> exists i ::
            && 0 <= i < |params|
            && NeedsInput(c, inputs, params[i].1)
            && params[i].1.value == r.name
            && forall j :: 0 <= j < i ==> !IsJobRef(c, params[j].1) && !NeedsInput(c, inputs, params[j].1))
      && (r == Dependent ==> exists i ::
            && 0 <= i < |params|
            && IsJobRef(c, params[i].1)
            && forall j :: 0 <= j < i ==> !IsJobRef(c, params[j].1) && !NeedsInput(c, inputs, params[j].1))
    decreases |params|, 0
  {
    var tail := params[1..];
    var r := Scan(c, tail, inputs);
    SkipRoot(c, params, inputs, r == Root);
    if r.Missing? {
      SkipFound(c, params, inputs, (p: Param) => NeedsInput(c, inputs, p) && p.value == r.name);
    }
    if r == Dependent {
      SkipFound(c, params, inputs, (p: Param) => IsJobRef(c, p));
    }
  }

  /** Every parameter passes when the first does and every later one does. */
  lemma SkipRoot(c: Chain, params: seq<(string, Param)>, inputs: Dict<Value>, b: bool)
    requires |params| > 0 && !IsJobRef(c, params[0].1) && !NeedsInput(c, inputs, params[0].1)
    requires b <==> forall i :: 0 <= i < |params[1..]| ==>
      !IsJobRef(c, params[1..][i].1) && !NeedsInput(c, inputs, params[1..][i].1)
    ensures b <==> forall i :: 0 <= i < |params| ==> !IsJobRef(c, params[i].1) && !NeedsInput(c, inputs, params[i].1)
  {
    var tail := params[1..];
    assert forall i :: 1 <= i < |params| ==> params[i] == tail[i - 1];
  }

  /** A parameter found in the rest, after only passing ones, is found in the whole
      list after only passing ones. */
  lemma SkipFound(c: Chain, params: seq<(string, Param)>, inputs: Dict<Value>, found: Param -> bool)
    requires |params| > 0 && !IsJobRef(c, params[0].1) && !NeedsInput(c, inputs, params[0].1)
    requires exists i ::
      && 0 <= i < |params[1..]|
      && found(params[1..][i].1)
      && forall j :: 0 <= j < i ==> !IsJobRef(c, params[1..][j].1) && !NeedsInput(c, inputs, params[1..][j].1)
    ensures exists i ::
      && 0 <= i < |params|
      && found(params[i].1)
      && forall j :: 0 <= j < i ==> !IsJobRef(c, params[j].1) && !NeedsInput(c, inputs, params[j].1)
  {
    var tail := params[1..];
    var i :| 0 <= i < |tail| && found(tail[i].1)
      && forall j :: 0 <= j < i ==> !IsJobRef(c, tail[j].1) && !NeedsInput(c, inputs, tail[j].1);
    assert params[i + 1] == tail[i];
    assert forall j :: 0 <= j < i + 1 ==> !IsJobRef(c, params[j].1) && !NeedsInput(c, inputs, params[j].1);
  }

  /** The job loop of `run`: each job in declared order is scanned; a missing input
      throws; a job without `job` tags is dispatched with the run inputs merged over
      its parameters. */
  function RunJobs(c: Chain, jobs: seq<(string, JobSpec)>, inputs: Dict<Value>, s: Store): Progress
    decreases |jobs|
  {
    if |jobs| == 0 then Progress(s, [], None)
    else
      var key := jobs[0].0;
      var job := jobs[0].1;
      match Scan(c, job.params, inputs)
      case Missing(n) => Progress(s, [], Some(MissingParameter(n)))
      case Dependent => RunJobs(c, jobs[1..], inputs, s)
      case Root =>
        match DispatchJob(c, s, key, job, Merge(job.params, Lift(inputs)))
        case Failure(e) => Progress(s, [], Some(e))
        case Success(sd) =>
          var rest := RunJobs(c, jobs[1..], inputs, sd.0);
          Progress(rest.store, [sd.1] + rest.dispatched, rest.failure)
  }

  /** `run`: the chain takes the new run id and user, then its jobs are scanned and
      the root ones dispatched. No events are fired. */
  function Run(c: Chain, runId: string, user: Option<string>, inputs: Dict<Value>, s: Store): (Chain, Outcome) {
    var c' := c.(runId := runId, user := user);
    var p := RunJobs(c', c'.jobs, inputs, s);
    (c', Outcome(p.store, [], p.dispatched, p.failure))
  }

  /** The filter step of the cascade: every declared job is tested against the same
      cache before anything is dispatched; a falsy key throws. */
  function ReadyJobs(c: Chain, s: Store, jobs: seq<(string, JobSpec)>): (r: Result<seq<(string, JobSpec)>, ChainError>)
    ensures r.Failure? <==> exists i :: 0 <= i < |jobs| && !StrTruthy(jobs[i].0)
    ensures r.Failure? ==> r.error == SuffixWithoutKey
    ensures r.Success? ==> forall e :: e in r.value <==> e in jobs && IsReady(c, s, e.0, e.1)
    decreases |jobs|
  {
    if |jobs| == 0 then Success([])
    else
      FalsyKeyCons(jobs);
      var ready :- ShouldDispatch(c, s, jobs[0].0, jobs[0].1);
      var rest :- ReadyJobs(c, s, jobs[1..]);
      DependenciesMetIff(c, s, jobs[0].1);
      ReadyCons(c, s, jobs, ready, rest);
      Success(if ready then [jobs[0]] + rest else rest)
  }

  /** Some key of the list is falsy exactly when the first is or some later one is. */
  lemma FalsyKeyCons(jobs: seq<(string, JobSpec)>)
    requires |jobs| > 0
    ensures (exists i :: 0 <= i < |jobs| && !StrTruthy(jobs[i].0))
        <==> !StrTruthy(jobs[0].0) || exists i :: 0 <= i < |jobs[1..]| && !StrTruthy(jobs[1..][i].0)
  {
    if exists i :: 0 <= i < |jobs[1..]| && !StrTruthy(jobs[1..][i].0) {
      var i :| 0 <= i < |jobs[1..]| && !StrTruthy(jobs[1..][i].0);
      assert jobs[i + 1] == jobs[1..][i];
    }
    if exists i :: 0 <= i < |jobs| && !StrTruthy(jobs[i].0) {
      var i :| 0 <= i < |jobs| && !StrTruthy(jobs[i].0);
      if i > 0 {
        assert jobs[1..][i - 1] == jobs[i];
      }
    }
  }

  /** The ready jobs of a list: the first one when it is ready, then the ready ones
      of the rest. */
  lemma ReadyCons(c: Chain, s: Store, jobs: seq<(string, JobSpec)>, ready: bool, rest: seq<(string, JobSpec)>)
    requires |jobs| > 0
    requires ready <==> IsReady(c, s, jobs[0].0, jobs[0].1)
    requires forall e :: e in rest <==> e in jobs[1..] && IsReady(c, s, e.0, e.1)
    ensures forall e :: e in (if ready then [jobs[0]] + rest else rest) <==> e in jobs && IsReady(c, s, e.0, e.1)
  {
    assert jobs == [jobs[0]] + jobs[1..];
  }

  /** Dispatching the ready jobs in order, with no extra parameters, until one throws. */
  function DispatchEach(c: Chain, s: Store, ready: seq<(string, JobSpec)>): (p: Progress)
    ensures |p.dispatched| <= |ready|
    ensures DispatchKeys(p.dispatched) == Keys(ready)[..|p.dispatched|]
    ensures p.failure.None? <==> |p.dispatched| == |ready|
    decreases |ready|
  {
    if |ready| == 0 then Progress(s, [], None)
    else
      match DispatchJob(c, s, ready[0].0, ready[0].1, [])
      case Failure(e) => Progress(s, [], Some(e))
      case Success(sd) =>
        var rest := DispatchEach(c, sd.0, ready[1..]);
        DispatchedCons(ready, sd.1, rest.dispatched, rest.failure);
        Progress(rest.store, [sd.1] + rest.dispatched, rest.failure)
  }

  /** Dispatching the first ready job ahead of a prefix of the others gives a prefix
      of all of them, complete exactly when the rest was. */
  lemma {:induction false} DispatchedCons(ready: seq<(string, JobSpec)>, d: Dispatch, ds: seq<Dispatch>, failure: Option<ChainError>)
    requires |ready| > 0 && d.key == ready[0].0
    requires |ds| <= |ready| - 1 && DispatchKeys(ds) == Keys(ready[1..])[..|ds|]
    requires failure.None? <==> |ds| == |ready| - 1
    ensures |[d] + ds| <= |ready|
    ensures DispatchKeys([d] + ds) == Keys(ready)[..|[d] + ds|]
    ensures failure.None? <==> |[d] + ds| == |ready|
  {
    DispatchKeysCons(d, ds);
    KeyPrefixStep(ready, DispatchKeys(ds));
  }

  lemma DispatchKeysCons(d: Dispatch, ds: seq<Dispatch>)
    ensures DispatchKeys([d] + ds) == [d.key] + DispatchKeys(ds)
  {
    assert ([d] + ds)[1..] == ds;
  }

  /** A prefix of the later keys, behind the first key, is a prefix of all the keys. */
  lemma KeyPrefixStep<V>(d: seq<(string, V)>, ks: seq<string>)
    requires |d| > 0 && |ks| <= |d| - 1 && ks == Keys(d[1..])[..|ks|]
    ensures [d[0].0] + ks == Keys(d)[..|ks| + 1]
  {
    assert Keys(d) == [d[0].0] + Keys(d[1..]);
  }

  /** Dispatching sets the flag of every job it dispatched, keeps every flag that was
      set, and writes nothing else. */
  lemma {:induction false} DispatchEachStore(c: Chain, s: Store, ready: seq<(string, JobSpec)>)
    ensures forall k :: k in DispatchKeys(DispatchEach(c, s, ready).dispatched) ==> Flagged(c, DispatchEach(c, s, ready).store, k)
    ensures forall k :: Flagged(c, s, k) ==> Flagged(c, DispatchEach(c, s, ready).store, k)
    ensures forall x :: x !in FlagKeys(c, DispatchKeys(DispatchEach(c, s, ready).dispatched)) ==>
      StoreGet(DispatchEach(c, s, ready).store, x) == StoreGet(s, x)
    decreases |ready|
  {
    if |ready| > 0 {
      var key := ready[0].0;
      var r := DispatchJob(c, s, key, ready[0].1, []);
      if r.Success? {
        var s1 := r.value.0;
        DispatchEachStore(c, s1, ready[1..]);
        var rest := DispatchEach(c, s1, ready[1..]);
        DispatchKeysCons(r.value.1, rest.dispatched);
        FlagStep(c, s, key, DispatchKeys(rest.dispatched), rest.store);
      }
    }
  }

  /** Setting one flag and then, from there, flags `ks` (writing nothing else): the
      flags of the key and of `ks` are set, old flags are kept, and nothing else
      differs from the start. */
  lemma FlagStep(c: Chain, s: Store, key: string, ks: seq<string>, s2: Store)
    requires StrTruthy(key)
    requires forall k :: k in ks ==> Flagged(c, s2, k)
    requires forall k :: Flagged(c, s[DispatchedKey(c, key) := Int(1)], k) ==> Flagged(c, s2, k)
    requires forall x :: x !in FlagKeys(c, ks) ==> StoreGet(s2, x) == StoreGet(s[DispatchedKey(c, key) := Int(1)], x)
    ensures forall k :: k in [key] + ks ==> Flagged(c, s2, k)
    ensures forall k :: Flagged(c, s, k) ==> Flagged(c, s2, k)
    ensures forall x :: x !in FlagKeys(c, [key] + ks) ==> StoreGet(s2, x) == StoreGet(s, x)
  {
    SetFlagKeepsFlags(c, s, key);
    forall x | x !in FlagKeys(c, [key] + ks) ensures StoreGet(s2, x) == StoreGet(s, x) {
      assert x != DispatchedKey(c, key);
      assert x !in FlagKeys(c, ks);
    }
  }

  /** The cascade after a response is stored: the ready jobs, then their dispatch. */
  function Cascade(c: Chain, s: Store, events: seq<Event>): Outcome {
    match ReadyJobs(c, s, c.jobs)
    case Failure(e) => Outcome(s, events, [], Some(e))
    case Success(ready) =>
      var p := DispatchEach(c, s, ready);
      Outcome(p.store, events, p.dispatched, p.failure)
  }

  /** `done`: a truthy error fires an error event and stops; completing the terminal
      job while the latch is unset fires the done event and sets the latch; any other
      completion (a repeated terminal one included) stores the response, fires a
      response event and dispatches every job that has become ready. */
  function Done(c: Chain, key: string, error: Value, response: Value, s: Store): (o: Outcome)
    ensures |o.events| == 1 && o.events[0].key == key
    ensures o.events[0].ErrorEvent? <==> Truthy(error)
    ensures o.events[0].DoneEvent? <==> !Truthy(error) && !IsDone(c, s) && key == c.done
  {
    if Truthy(error) then
      Outcome(s, [ErrorEvent(key, error)], [], None)
    else if !IsDone(c, s) && key == c.done then
      Outcome(s[LatchKey(c) := Int(1)], [DoneEvent(key, response)], [], None)
    else
      Cascade(c, s[ResponseKey(c, key) := response], [ResponseEvent(key, response)])
  }
}
