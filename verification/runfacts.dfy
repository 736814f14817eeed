/** What `run` does, stated against reference definitions: which job stops it, which
    jobs it dispatches and in what order, what it writes, and what the dispatched
    jobs receive. */
module RunFacts {
  import opened Results
  import opened Values
  import opened PhpArrays
  import opened Chains
  import opened Readiness
  import opened Resolve
  import opened Engine

  /** No parameter of the job carries a `job` tag: the job is a root of the chain. */
  predicate NoJobRef(c: Chain, job: JobSpec) {
    forall i :: 0 <= i < |job.params| ==> !IsJobRef(c, job.params[i].1)
  }

  /** Every tagged parameter of the job is overridden by a run input of the same name. */
  predicate InputsCover(inputs: Dict<Value>, job: JobSpec) {
    forall i :: 0 <= i < |job.params| && job.params[i].1.Tagged? ==> job.params[i].0 in Keys(inputs)
  }

  /** The job makes `run` throw: a required input is missing, or it is a root job
      that cannot be dispatched (falsy key, or a tagged parameter no input replaces). */
  predicate Blocks(c: Chain, inputs: Dict<Value>, key: string, job: JobSpec) {
    match Scan(c, job.params, inputs)
    case Missing(_) => true
    case Dependent => false
    case Root => !(StrTruthy(key) && InputsCover(inputs, job))
  }

  /** The position of the first blocking job, if any. */
  function FirstBlock(c: Chain, inputs: Dict<Value>, jobs: seq<(string, JobSpec)>): (r: Option<nat>)
    ensures r.Some? ==>
      && r.value < |jobs|
      && Blocks(c, inputs, jobs[r.value].0, jobs[r.value].1)
      && forall j :: 0 <= j < r.value ==> !Blocks(c, inputs, jobs[j].0, jobs[j].1)
    ensures r.None? <==> forall j :: 0 <= j < |jobs| ==> !Blocks(c, inputs, jobs[j].0, jobs[j].1)
    decreases |jobs|, 1
  {
    if |jobs| == 0 then None
    else if Blocks(c, inputs, jobs[0].0, jobs[0].1) then Some(0)
    else
      FirstBlockSkip(c, inputs, jobs);
      match FirstBlock(c, inputs, jobs[1..])
      case None => None
      case Some(n) => Some(n + 1)
  }

  /** Past a job that does not block, the first blocking job of the rest is the
      first of the whole list, one position on. */
  lemma FirstBlockSkip(c: Chain, inputs: Dict<Value>, jobs: seq<(string, JobSpec)>)
    requires |jobs| > 0 && !Blocks(c, inputs, jobs[0].0, jobs[0].1)
    ensures var r := FirstBlock(c, inputs, jobs[1..]);
      && (r.Some? ==> forall j :: 0 <= j < r.value + 1 ==> !Blocks(c, inputs, jobs[j].0, jobs[j].1))
      && (r.None? <==> forall j :: 0 <= j < |jobs| ==> !Blocks(c, inputs, jobs[j].0, jobs[j].1))
    decreases |jobs|, 0
  {
    var blocks := (e: (string, JobSpec)) => Blocks(c, inputs, e.0, e.1);
    SkipFirst(jobs, blocks, FirstBlock(c, inputs, jobs[1..]));
  }

  /** Past an element that fails the test, the elements that pass before a position
      of the rest are those that pass before the next position of the whole list. */
  lemma SkipFirst<T>(xs: seq<T>, p: T -> bool, r: Option<nat>)
    requires |xs| > 0 && !p(xs[0])
    requires r.Some? ==> r.value < |xs| - 1
    requires r.Some? ==> forall j :: 0 <= j < r.value ==> !p(xs[1..][j])
    requires r.None? <==> forall j :: 0 <= j < |xs| - 1 ==> !p(xs[1..][j])
    ensures r.Some? ==> forall j :: 0 <= j < r.value + 1 ==> !p(xs[j])
    ensures r.None? <==> forall j :: 0 <= j < |xs| ==> !p(xs[j])
  {
    var tail := xs[1..];
    assert forall j :: 1 <= j < |xs| ==> xs[j] == tail[j - 1];
  }

  /** How far `run` gets: up to the first blocking job, or through all of them. */
  function Reach(c: Chain, inputs: Dict<Value>, jobs: seq<(string, JobSpec)>): nat {
    match FirstBlock(c, inputs, jobs)
    case None => |jobs|
    case Some(n) => n
  }

  /** The keys of the root jobs, in declared order. */
  function RootKeys(c: Chain, jobs: seq<(string, JobSpec)>): seq<string>
    decreases |jobs|
  {
    if |jobs| == 0 then []
    else (if NoJobRef(c, jobs[0].1) then [jobs[0].0] else []) + RootKeys(c, jobs[1..])
  }

  /** The scan says Root exactly for a root job, whenever it finds nothing missing. */
  lemma ScanRoot(c: Chain, job: JobSpec, inputs: Dict<Value>)
    requires !Scan(c, job.params, inputs).Missing?
    ensures Scan(c, job.params, inputs) == Root <==> NoJobRef(c, job)
  {
  }

  /** A root job is dispatched at `run` exactly when it does not block. */
  lemma RootDispatch(c: Chain, s: Store, key: string, job: JobSpec, inputs: Dict<Value>)
    requires Scan(c, job.params, inputs) == Root
    ensures DispatchJob(c, s, key, job, Merge(job.params, Lift(inputs))).Success?
        <==> !Blocks(c, inputs, key, job)
  {
    RootParamsResolve(c, s, job, inputs);
  }

  lemma RootKeysPrefix(c: Chain, jobs: seq<(string, JobSpec)>, n: nat)
    requires 0 < n <= |jobs|
    ensures RootKeys(c, jobs[..n]) == (if NoJobRef(c, jobs[0].1) then [jobs[0].0] else []) + RootKeys(c, jobs[1..][..n - 1])
  {
    assert jobs[..n][1..] == jobs[1..][..n - 1];
  }

  /** Past a job that does not block, the search goes on in the rest. */
  lemma {:induction false} ReachCons(c: Chain, inputs: Dict<Value>, jobs: seq<(string, JobSpec)>)
    requires |jobs| > 0 && !Blocks(c, inputs, jobs[0].0, jobs[0].1)
    ensures FirstBlock(c, inputs, jobs).None? <==> FirstBlock(c, inputs, jobs[1..]).None?
    ensures Reach(c, inputs, jobs) == Reach(c, inputs, jobs[1..]) + 1
    ensures FirstBlock(c, inputs, jobs).Some? ==>
      jobs[FirstBlock(c, inputs, jobs).value] == jobs[1..][FirstBlock(c, inputs, jobs[1..]).value]
  {
  }

  /** The loop step past a job that does not block. */
  lemma {:induction false} RunJobsStep(c: Chain, jobs: seq<(string, JobSpec)>, inputs: Dict<Value>, s: Store, s1: Store, sent: seq<Dispatch>)
    requires |jobs| > 0 && !Blocks(c, inputs, jobs[0].0, jobs[0].1)
    requires RunJobs(c, jobs, inputs, s) == Progress(RunJobs(c, jobs[1..], inputs, s1).store,
      sent + RunJobs(c, jobs[1..], inputs, s1).dispatched, RunJobs(c, jobs[1..], inputs, s1).failure)
    requires DispatchKeys(sent) == (if NoJobRef(c, jobs[0].1) then [jobs[0].0] else [])
    requires RunJobs(c, jobs[1..], inputs, s1).failure.None? <==> FirstBlock(c, inputs, jobs[1..]).None?
    requires DispatchKeys(RunJobs(c, jobs[1..], inputs, s1).dispatched) == RootKeys(c, jobs[1..][..Reach(c, inputs, jobs[1..])])
    requires FirstBlock(c, inputs, jobs[1..]).Some? ==>
      var b := FirstBlock(c, inputs, jobs[1..]).value;
      Scan(c, jobs[1..][b].1.params, inputs).Missing? ==>
        RunJobs(c, jobs[1..], inputs, s1).failure == Some(MissingParameter(Scan(c, jobs[1..][b].1.params, inputs).name))
    ensures RunJobs(c, jobs, inputs, s).failure.None? <==> FirstBlock(c, inputs, jobs).None?
    ensures DispatchKeys(RunJobs(c, jobs, inputs, s).dispatched) == RootKeys(c, jobs[..Reach(c, inputs, jobs)])
    ensures FirstBlock(c, inputs, jobs).Some? ==>
      var b := FirstBlock(c, inputs, jobs).value;
      Scan(c, jobs[b].1.params, inputs).Missing? ==>
        RunJobs(c, jobs, inputs, s).failure == Some(MissingParameter(Scan(c, jobs[b].1.params, inputs).name))
  {
    ReachCons(c, inputs, jobs);
    RootKeysPrefix(c, jobs, Reach(c, inputs, jobs));
    DispatchKeysAppend(sent, RunJobs(c, jobs[1..], inputs, s1).dispatched);
  }

  lemma {:induction false} DispatchKeysAppend(x: seq<Dispatch>, y: seq<Dispatch>)
    ensures DispatchKeys(x + y) == DispatchKeys(x) + DispatchKeys(y)
  {
    assert |DispatchKeys(x + y)| == |DispatchKeys(x) + DispatchKeys(y)|;
    forall i | 0 <= i < |x| + |y|
      ensures DispatchKeys(x + y)[i] == (DispatchKeys(x) + DispatchKeys(y))[i]
    {
      if i < |x| {
        assert (x + y)[i] == x[i];
      } else {
        assert (x + y)[i] == y[i - |x|];
      }
    }
  }

  /** The job loop runs in declared order up to the first blocking job: it dispatches
      exactly the root jobs before it, throws there (with the missing input's name
      when an input is missing), and completes without exception exactly when no job
      blocks. */
  lemma {:induction false} RunJobsDispatches(c: Chain, jobs: seq<(string, JobSpec)>, inputs: Dict<Value>, s: Store)
    ensures RunJobs(c, jobs, inputs, s).failure.None? <==> FirstBlock(c, inputs, jobs).None?
    ensures DispatchKeys(RunJobs(c, jobs, inputs, s).dispatched) == RootKeys(c, jobs[..Reach(c, inputs, jobs)])
    ensures FirstBlock(c, inputs, jobs).Some? ==>
      var b := FirstBlock(c, inputs, jobs).value;
      Scan(c, jobs[b].1.params, inputs).Missing? ==>
        RunJobs(c, jobs, inputs, s).failure == Some(MissingParameter(Scan(c, jobs[b].1.params, inputs).name))
    decreases |jobs|
  {
    if |jobs| == 0 {
      assert jobs[..0] == [];
    } else {
      var key := jobs[0].0;
      var job := jobs[0].1;
      var scan := Scan(c, job.params, inputs);
      if scan.Missing? {
        assert jobs[..0] == [];
      } else {
        ScanRoot(c, job, inputs);
        if scan == Root {
          RootDispatch(c, s, key, job, inputs);
          var d := DispatchJob(c, s, key, job, Merge(job.params, Lift(inputs)));
          if d.Success? {
            RunJobsDispatches(c, jobs[1..], inputs, d.value.0);
            assert DispatchKeys([d.value.1]) == [key];
            RunJobsStep(c, jobs, inputs, s, d.value.0, [d.value.1]);
          } else {
            assert jobs[..0] == [];
          }
        } else {
          RunJobsDispatches(c, jobs[1..], inputs, s);
          assert [] + RunJobs(c, jobs[1..], inputs, s).dispatched == RunJobs(c, jobs[1..], inputs, s).dispatched;
          RunJobsStep(c, jobs, inputs, s, s, []);
        }
      }
    }
  }

  /** The job loop sets the flag of every job it dispatched, keeps every flag that was
      set, and writes nothing else. */
  lemma {:induction false} RunJobsStore(c: Chain, jobs: seq<(string, JobSpec)>, inputs: Dict<Value>, s: Store)
    ensures forall k :: k in DispatchKeys(RunJobs(c, jobs, inputs, s).dispatched) ==> Flagged(c, RunJobs(c, jobs, inputs, s).store, k)
    ensures forall k :: Flagged(c, s, k) ==> Flagged(c, RunJobs(c, jobs, inputs, s).store, k)
    ensures forall x :: x !in FlagKeys(c, DispatchKeys(RunJobs(c, jobs, inputs, s).dispatched)) ==>
      StoreGet(RunJobs(c, jobs, inputs, s).store, x) == StoreGet(s, x)
    decreases |jobs|
  {
    if |jobs| > 0 {
      var key := jobs[0].0;
      var job := jobs[0].1;
      match Scan(c, job.params, inputs)
      case Missing(_) =>
      case Dependent =>
        RunJobsStore(c, jobs[1..], inputs, s);
      case Root =>
        var d := DispatchJob(c, s, key, job, Merge(job.params, Lift(inputs)));
        if d.Success? {
          var s1 := d.value.0;
          RunJobsStore(c, jobs[1..], inputs, s1);
          var rest := RunJobs(c, jobs[1..], inputs, s1);
          DispatchKeysCons(d.value.1, rest.dispatched);
          FlagStep(c, s, key, DispatchKeys(rest.dispatched), rest.store);
        }
    }
  }

  /** Every job dispatched by the loop receives every run input under its own name
      with its own value. */
  lemma {:induction false} RunJobsInputs(c: Chain, jobs: seq<(string, JobSpec)>, inputs: Dict<Value>, s: Store)
    ensures forall d, k :: d in RunJobs(c, jobs, inputs, s).dispatched && k in Keys(inputs) ==>
      Get(d.params, k) == Get(inputs, k)
    decreases |jobs|
  {
    if |jobs| > 0 {
      var key := jobs[0].0;
      var job := jobs[0].1;
      match Scan(c, job.params, inputs)
      case Missing(_) =>
      case Dependent =>
        RunJobsInputs(c, jobs[1..], inputs, s);
      case Root =>
        var d := DispatchJob(c, s, key, job, Merge(job.params, Lift(inputs)));
        if d.Success? {
          RunJobsInputs(c, jobs[1..], inputs, d.value.0);
          forall k | k in Keys(inputs)
            ensures Get(d.value.1.params, k) == Get(inputs, k)
          {
            InputsOverride(c, s, job, inputs, k);
          }
        }
    }
  }

  /** `run`: the chain carries the new run id and user; no event is fired; the root
      jobs before the first blocking job are dispatched in declared order, flagged,
      and handed every run input; nothing else is written; the run throws exactly
      when some job blocks. */
  lemma RunDispatchesRoots(c: Chain, runId: string, user: Option<string>, inputs: Dict<Value>, s: Store)
    ensures var (c', o) := Run(c, runId, user, inputs, s);
      && c' == c.(runId := runId, user := user)
      && o.events == []
      && (o.failure.None? <==> forall j :: 0 <= j < |c.jobs| ==> !Blocks(c', inputs, c.jobs[j].0, c.jobs[j].1))
      && DispatchKeys(o.dispatched) == RootKeys(c', c.jobs[..Reach(c', inputs, c.jobs)])
      && (forall k :: k in DispatchKeys(o.dispatched) ==> Flagged(c', o.store, k))
      && (forall x :: x !in FlagKeys(c', DispatchKeys(o.dispatched)) ==> StoreGet(o.store, x) == StoreGet(s, x))
      && (forall d, k :: d in o.dispatched && k in Keys(inputs) ==> Get(d.params, k) == Get(inputs, k))
  {
    var c' := c.(runId := runId, user := user);
    RunJobsDispatches(c', c.jobs, inputs, s);
    RunJobsStore(c', c.jobs, inputs, s);
    RunJobsInputs(c', c.jobs, inputs, s);
  }
}
