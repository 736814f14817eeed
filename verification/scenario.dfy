/** The package's end-to-end scenario: two independent jobs, and a third that needs
    both and is the terminal job. The chain file itself is not part of this model;
    its jobs are rebuilt from the fixture classes' constructor parameters. The
    scenario needs only that the chain's splitter cuts the third job's tag
    `job jobOne` into its two words; `WordSplit` is one splitter that does. That tag
    is illustrative: a YAML tag cannot contain a space, so no chain file spells it.
    Completions are delivered after the call that dispatched their job has
    returned; `InlineRunDispatchesTwice` shows what happens when they are not. */
module Scenario {
  import opened Results
  import opened Values
  import opened PhpStrings
  import opened PhpArrays
  import opened Chains
  import opened Readiness
  import opened Resolve
  import opened Engine
  import opened RunFacts
  import opened DoneFacts
  import opened History

  /** A tag cut into words at single spaces: the leading word and the rest. */
  function WordSplit(tag: string): TagParts {
    var words := Explode(' ', tag);
    TagParts(words[0], words[1..])
  }

  lemma WordSplitTwo(a: string, b: string)
    requires ' ' !in a && ' ' !in b
    ensures WordSplit(a + " " + b) == TagParts(a, [b])
  {
    ExplodePrefix(' ', a, " " + b);
    assert (" " + b)[1..] == b;
    ExplodeWithout(' ', b);
    assert Explode(' ', " " + b) == ["", b];
    assert a + " " + b == a + (" " + b);
    assert a + "" == a;
  }

  const JobOne: JobSpec := JobSpec("JobOne", [("filePath", Plain(Str("one.txt")))], [])
  const JobTwo: JobSpec := JobSpec("JobTwo", [("message", Plain(Str("two")))], [])
  /** Takes the first job's response as its message, and waits for both jobs. */
  const JobThree: JobSpec :=
    JobSpec("JobThree", [("message", Tagged("job jobOne", ""))], [Tagged("job", "jobOne"), Tagged("job", "jobTwo")])

  function Jobs(): (d: Dict<JobSpec>) {
    var d := [("jobOne", JobOne), ("jobTwo", JobTwo), ("jobThree", JobThree)];
    assert Keys(d) == ["jobOne", "jobTwo", "jobThree"];
    d
  }

  /** The chain as built from its configuration: no name override, the terminal job
      defaulting to the last declared one. */
  function Chain1(): Chain
  {
    var cfg := Config(None, Jobs(), None, [], None);
    NewChain("chain1", cfg, WordSplit).value
  }

  /** The built chain: named `chain1`, terminal job `jobThree`, no namespace. */
  lemma Chain1Shape()
    ensures Chain1().name == "chain1" && IsScenario(Chain1()) && Chain1().namespace == ""
  {
    var cfg := Config(None, Jobs(), None, [], None);
    assert Keys(cfg.jobs)[|cfg.jobs| - 1] == "jobThree";
    JobThreeTag();
  }

  /** The third job's parameter is a `job` reference naming the first job. */
  lemma JobThreeTag()
    ensures WordSplit(JobThree.params[0].1.tag) == TagParts("job", ["jobOne"])
  {
    var t := JobThree.params[0].1.tag;
    assert t == "job" + " " + "jobOne";
    WordSplitTwo("job", "jobOne");
  }

  /** The chain's splitter cuts the third job's tag as word splitting does. */
  predicate SplitsTag(c: Chain) {
    c.split(JobThree.params[0].1.tag) == TagParts("job", ["jobOne"])
  }

  lemma JobRoots(c: Chain)
    requires SplitsTag(c)
    ensures IsJobRef(c, JobThree.params[0].1)
    ensures !NoJobRef(c, JobThree) && NoJobRef(c, JobOne) && NoJobRef(c, JobTwo)
  {
  }

  lemma ScenarioScan(c: Chain)
    requires SplitsTag(c)
    ensures Scan(c, JobOne.params, []) == Root
    ensures Scan(c, JobTwo.params, []) == Root
    ensures Scan(c, JobThree.params, []) == Dependent
  {
  }

  lemma ScenarioNoBlock(c: Chain)
    requires SplitsTag(c)
    ensures FirstBlock(c, [], Jobs()).None?
  {
    ScenarioScan(c);
    var jobs := Jobs();
    assert jobs == [("jobOne", JobOne), ("jobTwo", JobTwo), ("jobThree", JobThree)];
    RootUnblocked(c, "jobOne", JobOne);
    RootUnblocked(c, "jobTwo", JobTwo);
    assert !Blocks(c, [], "jobThree", JobThree);
    NoBlockOfThree(c, jobs);
  }

  lemma NoBlockOfThree(c: Chain, jobs: seq<(string, JobSpec)>)
    requires |jobs| == 3
    requires !Blocks(c, [], jobs[0].0, jobs[0].1)
    requires !Blocks(c, [], jobs[1].0, jobs[1].1)
    requires !Blocks(c, [], jobs[2].0, jobs[2].1)
    ensures FirstBlock(c, [], jobs).None?
  {
    forall j | 0 <= j < |jobs| ensures !Blocks(c, [], jobs[j].0, jobs[j].1) {
      if j == 0 {
      } else if j == 1 {
      } else {
        assert j == 2;
      }
    }
  }

  lemma RootUnblocked(c: Chain, key: string, job: JobSpec)
    requires Scan(c, job.params, []) == Root && StrTruthy(key)
    requires forall i :: 0 <= i < |job.params| ==> job.params[i].1.Plain?
    ensures !Blocks(c, [], key, job)
  {
  }

  lemma ScenarioRootKeys(c: Chain)
    requires SplitsTag(c)
    ensures RootKeys(c, Jobs()) == ["jobOne", "jobTwo"]
  {
    JobRoots(c);
    var jobs := Jobs();
    assert jobs[1..][1..][1..] == [];
    assert RootKeys(c, jobs[1..][1..]) == [];
  }

  /** A chain with the scenario's jobs, splitter and terminal job, whatever its name,
      namespace and run. */
  predicate IsScenario(c: Chain) {
    c.jobs == Jobs() && SplitsTag(c) && c.done == "jobThree"
  }

  /** Running the chain on an empty cache dispatches the first two jobs, in order,
      fires nothing and completes; the third job waits. */
  lemma ScenarioRun(c0: Chain, runId: string, s: Store)
    requires IsScenario(c0)
    requires forall x :: StoreGet(s, x) == Null
    ensures var (c, o) := Run(c0, runId, None, [], s);
      && IsScenario(c)
      && o.failure.None?
      && o.events == []
      && DispatchKeys(o.dispatched) == ["jobOne", "jobTwo"]
      && Flagged(c, o.store, "jobOne") && Flagged(c, o.store, "jobTwo")
      && forall x :: x !in FlagKeys(c, ["jobOne", "jobTwo"]) ==> StoreGet(o.store, x) == Null
  {
    var c := c0.(runId := runId, user := None);
    var jobs := c0.jobs;
    ScenarioNoBlock(c);
    ScenarioRootKeys(c);
    assert Reach(c, [], jobs) == |jobs|;
    assert jobs[..|jobs|] == jobs;
    RunDispatchesRoots(c0, runId, None, [], s);
  }

  lemma ScenarioKeysTruthy(c: Chain)
    requires IsScenario(c)
    ensures forall i :: 0 <= i < |c.jobs| ==> StrTruthy(c.jobs[i].0)
  {
    assert Keys(c.jobs) == ["jobOne", "jobTwo", "jobThree"];
  }

  /** On any cache, the first two jobs are ready while unflagged, and the third once
      it is unflagged and both others have a response. */
  lemma ScenarioReady(c: Chain, s: Store)
    requires IsScenario(c)
    ensures ReadyKeys(c, s, c.jobs) ==
      (if Flagged(c, s, "jobOne") then [] else ["jobOne"])
      + (if Flagged(c, s, "jobTwo") then [] else ["jobTwo"])
      + (if !Flagged(c, s, "jobThree") && HasResponse(c, s, "jobOne") && HasResponse(c, s, "jobTwo") then ["jobThree"] else [])
  {
    var jobs := c.jobs;
    assert jobs == [("jobOne", JobOne), ("jobTwo", JobTwo), ("jobThree", JobThree)];
    ReadyKeysOfThree(c, s, jobs, IsReady(c, s, "jobOne", JobOne), IsReady(c, s, "jobTwo", JobTwo),
                     IsReady(c, s, "jobThree", JobThree));
    DependenciesMetIff(c, s, JobOne);
    DependenciesMetIff(c, s, JobTwo);
    JobThreeReady(c, s);
  }

  lemma JobThreeReady(c: Chain, s: Store)
    ensures IsReady(c, s, "jobThree", JobThree)
        <==> !Flagged(c, s, "jobThree") && HasResponse(c, s, "jobOne") && HasResponse(c, s, "jobTwo")
  {
    DependenciesMetIff(c, s, JobThree);
    assert Tagged("job", "jobOne") in JobThree.data && Tagged("job", "jobTwo") in JobThree.data;
  }

  lemma ReadyKeysOfThree(c: Chain, s: Store, jobs: seq<(string, JobSpec)>, r0: bool, r1: bool, r2: bool)
    requires |jobs| == 3
    requires r0 == IsReady(c, s, jobs[0].0, jobs[0].1)
    requires r1 == IsReady(c, s, jobs[1].0, jobs[1].1)
    requires r2 == IsReady(c, s, jobs[2].0, jobs[2].1)
    ensures ReadyKeys(c, s, jobs) ==
      (if r0 then [jobs[0].0] else []) + (if r1 then [jobs[1].0] else []) + (if r2 then [jobs[2].0] else [])
  {
    var t1 := jobs[1..];
    var t2 := t1[1..];
    assert t1[0] == jobs[1] && t2[0] == jobs[2] && |t2[1..]| == 0;
    var k1, k2, k3 := (if r0 then [jobs[0].0] else []), (if r1 then [jobs[1].0] else []), (if r2 then [jobs[2].0] else []);
    ReadyKeysStep(c, s, t2, r2, []);
    ReadyKeysStep(c, s, t1, r1, k3 + []);
    ReadyKeysStep(c, s, jobs, r0, k2 + (k3 + []));
    ConcatThree(k1, k2, k3);
  }

  lemma ConcatThree<T>(a: seq<T>, b: seq<T>, c: seq<T>)
    ensures a + (b + (c + [])) == a + b + c
  {
  }

  lemma ReadyKeysStep(c: Chain, s: Store, jobs: seq<(string, JobSpec)>, ready: bool, rest: seq<string>)
    requires |jobs| > 0
    requires ready == IsReady(c, s, jobs[0].0, jobs[0].1) && rest == ReadyKeys(c, s, jobs[1..])
    ensures ReadyKeys(c, s, jobs) == (if ready then [jobs[0].0] else []) + rest
  {
  }

  /** What the scenario's steps read from the cache: the three flags, the first two
      responses, and the latch. */
  ghost predicate View(c: Chain, s: Store, f1: bool, f2: bool, f3: bool, r1: Value, r2: Value, done: bool) {
    && Flagged(c, s, "jobOne") == f1
    && Flagged(c, s, "jobTwo") == f2
    && Flagged(c, s, "jobThree") == f3
    && StoreGet(s, ResponseKey(c, "jobOne")) == r1
    && StoreGet(s, ResponseKey(c, "jobTwo")) == r2
    && IsDone(c, s) == done
  }

  /** Storing a response of one job leaves every flag, the other response and the latch. */
  lemma PutResponseView(c: Chain, s: Store, key: string, v: Value,
                        f1: bool, f2: bool, f3: bool, r1: Value, r2: Value, done: bool)
    requires key == "jobOne" || key == "jobTwo"
    requires View(c, s, f1, f2, f3, r1, r2, done)
    ensures View(c, s[ResponseKey(c, key) := v], f1, f2, f3,
                 if key == "jobOne" then v else r1, if key == "jobTwo" then v else r2, done)
  {
    assert '.' !in key && StrTruthy(key) && key != "done";
    PutResponseKeeps(c, s, key, v);
    if key == "jobOne" {
      PutResponseOther(c, s, key, "jobTwo", v);
    } else {
      PutResponseOther(c, s, key, "jobOne", v);
    }
  }

  /** Storing one job's response leaves another job's response. */
  lemma PutResponseOther(c: Chain, s: Store, key: string, other: string, v: Value)
    requires StrTruthy(key) && StrTruthy(other) && key != other
    ensures StoreGet(s[ResponseKey(c, key) := v], ResponseKey(c, key)) == v
    ensures StoreGet(s[ResponseKey(c, key) := v], ResponseKey(c, other)) == StoreGet(s, ResponseKey(c, other))
  {
    ResponseKeysDistinct(c, key, other);
  }

  /** Storing a response under a dot-free key keeps every flag and the latch. */
  lemma PutResponseKeeps(c: Chain, s: Store, key: string, v: Value)
    requires '.' !in key && key != "done"
    ensures forall k :: Flagged(c, s[ResponseKey(c, key) := v], k) <==> Flagged(c, s, k)
    ensures IsDone(c, s[ResponseKey(c, key) := v]) == IsDone(c, s)
  {
    PutResponseFlags(c, s, key, v);
    ResponseIsNotLatch(c, key);
  }

  /** The first job completes: its response event fires and nothing is dispatched,
      since the third job still waits for the second. */
  lemma ScenarioFirstDone(c: Chain, s: Store, resp: Value)
    requires IsScenario(c) && resp != Null
    requires View(c, s, true, true, false, Null, Null, false)
    ensures var o := Done(c, "jobOne", Null, resp, s);
      && o.events == [ResponseEvent("jobOne", resp)]
      && o.dispatched == []
      && o.failure.None?
      && View(c, o.store, true, true, false, resp, Null, false)
  {
    var s2 := s[ResponseKey(c, "jobOne") := resp];
    PutResponseView(c, s, "jobOne", resp, true, true, false, Null, Null, false);
    FirstReady(c, s2, resp);
    DoneStores(c, "jobOne", Null, resp, s);
  }

  /** With only the first response stored, nothing is ready. */
  lemma FirstReady(c: Chain, s: Store, r1: Value)
    requires IsScenario(c)
    requires View(c, s, true, true, false, r1, Null, false)
    ensures ReadyJobs(c, s, c.jobs) == Success([])
  {
    ScenarioKeysTruthy(c);
    ScenarioReady(c, s);
    ReadyJobsKeys(c, s, c.jobs);
  }

  /** The third job's parameters, resolved with no extra ones: its message is the
      stored response of the first job. */
  lemma JobThreeParams(c: Chain, s: Store)
    requires SplitsTag(c)
    requires StoreGet(s, ResponseKey(c, "jobOne")) != Null
    ensures GetJobParams(c, s, JobThree, []) == Success([("message", StoreGet(s, ResponseKey(c, "jobOne")))])
  {
    MergeEmpty(JobThree.params);
    var p := JobThree.params[0].1;
    assert IsJobRef(c, p);
    ResolveOne(c, s, JobThree.params);
  }

  lemma ResolveOne(c: Chain, s: Store, params: Dict<Param>)
    requires |params| == 1 && GetParam(c, s, params[0].1).Success?
    ensures ResolveAll(c, s, params) == Success([(params[0].0, GetParam(c, s, params[0].1).value)])
  {
    var r := ResolveAll(c, s, params);
    assert r.Success?;
    assert r.value == [r.value[0]];
  }

  /** The second job completes: its response event fires and the third job, now
      ready, is dispatched with the first job's response as its message. */
  lemma ScenarioSecondDone(c: Chain, s: Store, r1: Value, resp: Value)
    requires IsScenario(c) && r1 != Null && resp != Null
    requires View(c, s, true, true, false, r1, Null, false)
    ensures var o := Done(c, "jobTwo", Null, resp, s);
      && o.events == [ResponseEvent("jobTwo", resp)]
      && o.failure.None?
      && |o.dispatched| == 1
      && o.dispatched[0].key == "jobThree"
      && o.dispatched[0].params == [("message", r1)]
      && View(c, o.store, true, true, true, r1, resp, false)
  {
    var s2 := s[ResponseKey(c, "jobTwo") := resp];
    PutResponseView(c, s, "jobTwo", resp, true, true, false, r1, Null, false);
    SecondReady(c, s2, r1, resp);
    JobThreeParams(c, s2);
    SecondDoneSteps(c, s, r1, resp, JobThree);
  }

  /** The second completion, from the facts the scenario gives about it. */
  lemma SecondDoneSteps(c: Chain, s: Store, r1: Value, resp: Value, job: JobSpec)
    requires c.done != "jobTwo"
    requires View(c, s[ResponseKey(c, "jobTwo") := resp], true, true, false, r1, resp, false)
    requires ReadyJobs(c, s[ResponseKey(c, "jobTwo") := resp], c.jobs) == Success([("jobThree", job)])
    requires GetJobParams(c, s[ResponseKey(c, "jobTwo") := resp], job, []) == Success([("message", r1)])
    ensures var o := Done(c, "jobTwo", Null, resp, s);
      && o.events == [ResponseEvent("jobTwo", resp)]
      && o.failure.None?
      && |o.dispatched| == 1
      && o.dispatched[0].key == "jobThree"
      && o.dispatched[0].params == [("message", r1)]
      && View(c, o.store, true, true, true, r1, resp, false)
  {
    var s2 := s[ResponseKey(c, "jobTwo") := resp];
    DoneStores(c, "jobTwo", Null, resp, s);
    CascadeOne(c, s2, [ResponseEvent("jobTwo", resp)], "jobThree", job);
    ThirdFlagView(c, s2, r1, resp);
  }

  /** A completion that is neither an error nor the first terminal one stores the
      response and cascades. */
  lemma DoneStores(c: Chain, key: string, error: Value, response: Value, s: Store)
    requires !Truthy(error) && (IsDone(c, s) || key != c.done)
    ensures Done(c, key, error, response, s) ==
      Cascade(c, s[ResponseKey(c, key) := response], [ResponseEvent(key, response)])
  {
  }

  /** A cascade with exactly one ready job, whose parameters resolve, dispatches it. */
  lemma CascadeOne(c: Chain, s: Store, events: seq<Event>, key: string, job: JobSpec)
    requires ReadyJobs(c, s, c.jobs) == Success([(key, job)])
    requires StrTruthy(key) && GetJobParams(c, s, job, []).Success?
    ensures Cascade(c, s, events) ==
      Outcome(s[DispatchedKey(c, key) := Int(1)], events, [Dispatch(key, QualifiedType(c, job), GetJobParams(c, s, job, []).value)], None)
  {
    DispatchOne(c, s, key, job);
  }

  /** With both responses stored and only the first two jobs flagged, the third job
      is the only ready one. */
  lemma SecondReady(c: Chain, s: Store, r1: Value, r2: Value)
    requires IsScenario(c) && r1 != Null && r2 != Null
    requires View(c, s, true, true, false, r1, r2, false)
    ensures ReadyJobs(c, s, c.jobs) == Success([("jobThree", JobThree)])
  {
    ScenarioKeysTruthy(c);
    ScenarioReady(c, s);
    ThirdKeyUnique(c.jobs);
    SingleReady(c, s, c.jobs, "jobThree", JobThree);
  }

  /** Only the third entry of the scenario's jobs carries the third key. */
  lemma ThirdKeyUnique(jobs: seq<(string, JobSpec)>)
    requires jobs == Jobs()
    ensures forall i :: 0 <= i < |jobs| && jobs[i].0 == "jobThree" ==> jobs[i].1 == JobThree
  {
  }

  /** When exactly one key is ready and that key names one job only, the filter
      yields that job alone. */
  lemma SingleReady(c: Chain, s: Store, jobs: seq<(string, JobSpec)>, key: string, job: JobSpec)
    requires ReadyJobs(c, s, jobs).Success?
    requires ReadyKeys(c, s, jobs) == [key]
    requires forall i :: 0 <= i < |jobs| && jobs[i].0 == key ==> jobs[i].1 == job
    ensures ReadyJobs(c, s, jobs) == Success([(key, job)])
  {
    ReadyJobsKeys(c, s, jobs);
    var ready := ReadyJobs(c, s, jobs).value;
    assert Keys(ready) == [key];
    assert ready[0] in jobs;
    assert ready == [ready[0]];
  }

  /** Dispatching a single ready job with resolvable parameters flags it and sends it. */
  lemma DispatchOne(c: Chain, s: Store, key: string, job: JobSpec)
    requires StrTruthy(key) && GetJobParams(c, s, job, []).Success?
    ensures DispatchEach(c, s, [(key, job)]) ==
      Progress(s[DispatchedKey(c, key) := Int(1)], [Dispatch(key, QualifiedType(c, job), GetJobParams(c, s, job, []).value)], None)
  {
    var ready := [(key, job)];
    assert ready[1..] == [];
  }

  /** Flagging the third job leaves the rest of the view as it was. */
  lemma ThirdFlagView(c: Chain, s: Store, r1: Value, r2: Value)
    requires View(c, s, true, true, false, r1, r2, false)
    ensures View(c, s[DispatchedKey(c, "jobThree") := Int(1)], true, true, true, r1, r2, false)
  {
    DispatchedKeysDistinct(c, "jobThree", "jobOne");
    DispatchedKeysDistinct(c, "jobThree", "jobTwo");
    FlagIsNotResponse(c, "jobThree", "jobOne");
    FlagIsNotResponse(c, "jobThree", "jobTwo");
    FlagIsNotLatch(c, "jobThree");
  }

  /** The terminal job completes: the done event fires with its response, the latch
      is set and nothing is dispatched. */
  lemma ScenarioTerminalDone(c: Chain, s: Store, r1: Value, r2: Value, resp: Value)
    requires IsScenario(c)
    requires View(c, s, true, true, true, r1, r2, false)
    ensures var o := Done(c, "jobThree", Null, resp, s);
      && o.events == [DoneEvent("jobThree", resp)]
      && o.dispatched == []
      && o.failure.None?
      && IsDone(c, o.store)
  {
    DoneOnTerminal(c, "jobThree", Null, resp, s);
  }

  /** After the run, the first two jobs are flagged, the third is not, and no
      response or latch is stored. */
  lemma RunView(c: Chain, s: Store)
    requires Flagged(c, s, "jobOne") && Flagged(c, s, "jobTwo")
    requires forall x :: x !in FlagKeys(c, ["jobOne", "jobTwo"]) ==> StoreGet(s, x) == Null
    ensures View(c, s, true, true, false, Null, Null, false)
  {
    DispatchedKeysDistinct(c, "jobThree", "jobOne");
    DispatchedKeysDistinct(c, "jobThree", "jobTwo");
    assert DispatchedKey(c, "jobThree") !in FlagKeys(c, ["jobOne", "jobTwo"]);
    FlagNotAmong(c, ResponseKey(c, "jobOne"), "jobOne");
    FlagNotAmong(c, ResponseKey(c, "jobTwo"), "jobTwo");
    FlagIsNotLatch(c, "jobOne");
    FlagIsNotLatch(c, "jobTwo");
  }

  /** A response key of a scenario job is neither of the first two flags. */
  lemma FlagNotAmong(c: Chain, x: string, k: string)
    requires x == ResponseKey(c, k) && (k == "jobOne" || k == "jobTwo")
    ensures x !in FlagKeys(c, ["jobOne", "jobTwo"])
  {
    FlagIsNotResponse(c, "jobOne", k);
    FlagIsNotResponse(c, "jobTwo", k);
  }

  /** One completion followed by the rest. */
  lemma ReplayCons(c: Chain, s: Store, d: Completion, cs: seq<Completion>)
    ensures var o := Done(c, d.key, d.error, d.response, s);
      var t := Replay(c, o.store, cs);
      Replay(c, s, [d] + cs) == Trace(t.store, o.events + t.events, o.dispatched + t.dispatched)
  {
    assert ([d] + cs)[1..] == cs;
  }

  /** The three completions of the scenario, in order, after the run: two response
      events, the third job dispatched with the first job's response as its message,
      then the done event. */
  lemma ScenarioCompletions(c: Chain, s: Store, r1: Value, r2: Value, r3: Value)
    requires IsScenario(c) && r1 != Null && r2 != Null
    requires View(c, s, true, true, false, Null, Null, false)
    ensures var t := Replay(c, s, [Completion("jobOne", Null, r1), Completion("jobTwo", Null, r2), Completion("jobThree", Null, r3)]);
      && t.events == [ResponseEvent("jobOne", r1), ResponseEvent("jobTwo", r2), DoneEvent("jobThree", r3)]
      && DispatchKeys(t.dispatched) == ["jobThree"]
      && t.dispatched[0].params == [("message", r1)]
      && IsDone(c, t.store)
  {
    var d1, d2, d3 := Completion("jobOne", Null, r1), Completion("jobTwo", Null, r2), Completion("jobThree", Null, r3);
    var o1 := Done(c, "jobOne", Null, r1, s);
    ScenarioFirstDone(c, s, r1);
    var o2 := Done(c, "jobTwo", Null, r2, o1.store);
    ScenarioSecondDone(c, o1.store, r1, r2);
    ScenarioTerminalDone(c, o2.store, r1, r2, r3);
    ThreeStepTrace(c, s, d1, d2, d3, ResponseEvent("jobOne", r1), ResponseEvent("jobTwo", r2), DoneEvent("jobThree", r3));
  }

  /** Three completions of which only the middle one dispatches, one job, and each
      fires one event: the trace holds the three events and that one dispatch. */
  lemma ThreeStepTrace(c: Chain, s: Store, d1: Completion, d2: Completion, d3: Completion, e1: Event, e2: Event, e3: Event)
    requires var o1 := Done(c, d1.key, d1.error, d1.response, s);
      var o2 := Done(c, d2.key, d2.error, d2.response, o1.store);
      var o3 := Done(c, d3.key, d3.error, d3.response, o2.store);
      && o1.events == [e1] && o2.events == [e2] && o3.events == [e3]
      && o1.dispatched == [] && |o2.dispatched| == 1 && o3.dispatched == []
    ensures var o1 := Done(c, d1.key, d1.error, d1.response, s);
      var o2 := Done(c, d2.key, d2.error, d2.response, o1.store);
      var o3 := Done(c, d3.key, d3.error, d3.response, o2.store);
      var t := Replay(c, s, [d1, d2, d3]);
      && t.events == [e1, e2, e3]
      && t.dispatched == o2.dispatched
      && t.store == o3.store
  {
    var o1 := Done(c, d1.key, d1.error, d1.response, s);
    var o2 := Done(c, d2.key, d2.error, d2.response, o1.store);
    ThreeDisplay(d1, d2, d3);
    ThreeDisplay(e1, e2, e3);
    ReplayThree(c, s, d1, d2, d3);
    assert [] + (o2.dispatched + ([] + [])) == o2.dispatched;
  }

  lemma ThreeDisplay<T>(a: T, b: T, x: T)
    ensures [a] + ([b] + ([x] + [])) == [a, b, x]
  {
    assert [x] + [] == [x];
    assert [b] + [x] == [b, x];
  }

  /** Three completions replayed are the three calls of `done`, one after another. */
  lemma ReplayThree(c: Chain, s: Store, d1: Completion, d2: Completion, d3: Completion)
    ensures var o1 := Done(c, d1.key, d1.error, d1.response, s);
      var o2 := Done(c, d2.key, d2.error, d2.response, o1.store);
      var o3 := Done(c, d3.key, d3.error, d3.response, o2.store);
      Replay(c, s, [d1] + ([d2] + ([d3] + []))) ==
        Trace(o3.store, o1.events + (o2.events + (o3.events + [])), o1.dispatched + (o2.dispatched + (o3.dispatched + [])))
  {
    var o1 := Done(c, d1.key, d1.error, d1.response, s);
    var o2 := Done(c, d2.key, d2.error, d2.response, o1.store);
    ReplayCons(c, o2.store, d3, []);
    ReplayCons(c, o1.store, d2, [d3] + []);
    ReplayCons(c, s, d1, [d2] + ([d3] + []));
  }

  /** The package's scenario end to end: on an empty cache the run dispatches the
      first two jobs, the three completions dispatch the third, and the done event
      closes the run. Every job is dispatched exactly once. */
  lemma ScenarioEndToEnd(c0: Chain, runId: string, s: Store, r1: Value, r2: Value, r3: Value)
    requires IsScenario(c0) && r1 != Null && r2 != Null
    requires forall x :: StoreGet(s, x) == Null
    ensures var (c, o) := Run(c0, runId, None, [], s);
      var t := Replay(c, o.store, [Completion("jobOne", Null, r1), Completion("jobTwo", Null, r2), Completion("jobThree", Null, r3)]);
      && t.events == [ResponseEvent("jobOne", r1), ResponseEvent("jobTwo", r2), DoneEvent("jobThree", r3)]
      && DispatchKeys(o.dispatched) == ["jobOne", "jobTwo"]
      && DispatchKeys(t.dispatched) == ["jobThree"]
      && t.dispatched[0].params == [("message", r1)]
      && DispatchKeys(o.dispatched + t.dispatched) == ["jobOne", "jobTwo", "jobThree"]
      && IsDone(c, t.store)
  {
    var (c, o) := Run(c0, runId, None, [], s);
    ScenarioRun(c0, runId, s);
    AfterRun(c, o, r1, r2, r3);
  }

  /** What the completions do after a run that flagged the first two jobs and wrote
      nothing else. */
  lemma AfterRun(c: Chain, o: Outcome, r1: Value, r2: Value, r3: Value)
    requires IsScenario(c) && r1 != Null && r2 != Null
    requires DispatchKeys(o.dispatched) == ["jobOne", "jobTwo"]
    requires Flagged(c, o.store, "jobOne") && Flagged(c, o.store, "jobTwo")
    requires forall x :: x !in FlagKeys(c, ["jobOne", "jobTwo"]) ==> StoreGet(o.store, x) == Null
    ensures var t := Replay(c, o.store, [Completion("jobOne", Null, r1), Completion("jobTwo", Null, r2), Completion("jobThree", Null, r3)]);
      && t.events == [ResponseEvent("jobOne", r1), ResponseEvent("jobTwo", r2), DoneEvent("jobThree", r3)]
      && DispatchKeys(t.dispatched) == ["jobThree"]
      && t.dispatched[0].params == [("message", r1)]
      && DispatchKeys(o.dispatched + t.dispatched) == ["jobOne", "jobTwo", "jobThree"]
      && IsDone(c, t.store)
  {
    RunView(c, o.store);
    ScenarioCompletions(c, o.store, r1, r2, r3);
    var t := Replay(c, o.store, [Completion("jobOne", Null, r1), Completion("jobTwo", Null, r2), Completion("jobThree", Null, r3)]);
    DispatchKeysAppend(o.dispatched, t.dispatched);
  }

  /** Only the second entry of the scenario's jobs carries the second key. */
  lemma SecondKeyUnique(jobs: seq<(string, JobSpec)>)
    requires jobs == Jobs()
    ensures forall i :: 0 <= i < |jobs| && jobs[i].0 == "jobTwo" ==> jobs[i].1 == JobTwo
  {
  }

  /** The cache inside `run` right after the first job is dispatched: only its flag. */
  lemma FirstFlagView(c: Chain, s: Store)
    requires forall x :: StoreGet(s, x) == Null
    ensures View(c, s[DispatchedKey(c, "jobOne") := Int(1)], true, false, false, Null, Null, false)
  {
    var s1 := s[DispatchedKey(c, "jobOne") := Int(1)];
    assert forall x :: x != DispatchedKey(c, "jobOne") ==> StoreGet(s1, x) == StoreGet(s, x);
    DispatchedKeysDistinct(c, "jobOne", "jobTwo");
    DispatchedKeysDistinct(c, "jobOne", "jobThree");
    FlagIsNotResponse(c, "jobOne", "jobOne");
    FlagIsNotResponse(c, "jobOne", "jobTwo");
    FlagIsNotLatch(c, "jobOne");
  }

  /** With the first job flagged and answered and nothing else stored, the second
      job is the only ready one. */
  lemma InlineReady(c: Chain, s: Store, r1: Value)
    requires IsScenario(c) && r1 != Null
    requires View(c, s, true, false, false, r1, Null, false)
    ensures ReadyJobs(c, s, c.jobs) == Success([("jobTwo", JobTwo)])
  {
    ScenarioKeysTruthy(c);
    ScenarioReady(c, s);
    SecondKeyUnique(c.jobs);
    SingleReady(c, s, c.jobs, "jobTwo", JobTwo);
  }

  /** The first job's completion while only its own flag is set dispatches and
      flags the second job. */
  lemma InlineFirstDone(c: Chain, s: Store, r1: Value)
    requires IsScenario(c) && r1 != Null
    requires View(c, s, true, false, false, Null, Null, false)
    ensures var o := Done(c, "jobOne", Null, r1, s);
      && DispatchKeys(o.dispatched) == ["jobTwo"]
      && Flagged(c, o.store, "jobTwo")
  {
    var s2 := s[ResponseKey(c, "jobOne") := r1];
    PutResponseView(c, s, "jobOne", r1, true, false, false, Null, Null, false);
    InlineReady(c, s2, r1);
    MergeEmpty(JobTwo.params);
    ResolveOne(c, s2, JobTwo.params);
    FirstDoneSteps(c, s, r1, JobTwo);
  }

  /** A completion of the first job after which exactly the second job is ready, with
      resolvable parameters, dispatches and flags it. */
  lemma FirstDoneSteps(c: Chain, s: Store, r1: Value, job: JobSpec)
    requires c.done != "jobOne"
    requires ReadyJobs(c, s[ResponseKey(c, "jobOne") := r1], c.jobs) == Success([("jobTwo", job)])
    requires GetJobParams(c, s[ResponseKey(c, "jobOne") := r1], job, []).Success?
    ensures var o := Done(c, "jobOne", Null, r1, s);
      && DispatchKeys(o.dispatched) == ["jobTwo"]
      && Flagged(c, o.store, "jobTwo")
  {
    var s2 := s[ResponseKey(c, "jobOne") := r1];
    DoneStores(c, "jobOne", Null, r1, s);
    CascadeOne(c, s2, [ResponseEvent("jobOne", r1)], "jobTwo", job);
  }

  /** The rest of `run`'s loop, from the second job on, dispatches the second job
      whatever the cache holds: the loop never reads a flag. */
  lemma RunRestIgnoresFlag(c: Chain, s: Store)
    requires IsScenario(c)
    ensures DispatchKeys(RunJobs(c, c.jobs[1..], [], s).dispatched) == ["jobTwo"]
  {
    TailFacts(c);
    RunJobsDispatches(c, c.jobs[1..], [], s);
  }

  /** From the second job on nothing blocks `run`, and the second job is the only
      root. */
  lemma TailFacts(c: Chain)
    requires IsScenario(c)
    ensures FirstBlock(c, [], c.jobs[1..]).None?
    ensures c.jobs[1..][..Reach(c, [], c.jobs[1..])] == c.jobs[1..]
    ensures RootKeys(c, c.jobs[1..]) == ["jobTwo"]
  {
    var jobs := c.jobs;
    var tail := jobs[1..];
    ScenarioNoBlock(c);
    ScenarioRootKeys(c);
    JobRoots(c);
    assert forall j :: 0 <= j < |tail| ==> tail[j] == jobs[j + 1];
    assert tail[..|tail|] == tail;
  }

  /** On a queue that runs each job as soon as it is dispatched, the first job
      completes while `run` is still in its loop. That completion dispatches and
      flags the second job, and the loop, which never reads the flag, then
      dispatches the second job again. */
  lemma InlineRunDispatchesTwice(c: Chain, s: Store, r1: Value)
    requires IsScenario(c) && r1 != Null
    requires forall x :: StoreGet(s, x) == Null
    ensures var d := DispatchJob(c, s, "jobOne", JobOne, Merge(JobOne.params, Lift([])));
      && d.Success?
      && (var o := Done(c, "jobOne", Null, r1, d.value.0);
          && DispatchKeys(o.dispatched) == ["jobTwo"]
          && Flagged(c, o.store, "jobTwo")
          && DispatchKeys(RunJobs(c, c.jobs[1..], [], o.store).dispatched) == ["jobTwo"])
  {
    ScenarioScan(c);
    RootUnblocked(c, "jobOne", JobOne);
    RootDispatch(c, s, "jobOne", JobOne, []);
    var d := DispatchJob(c, s, "jobOne", JobOne, Merge(JobOne.params, Lift([])));
    FirstFlagView(c, s);
    InlineFirstDone(c, d.value.0, r1);
    RunRestIgnoresFlag(c, Done(c, "jobOne", Null, r1, d.value.0).store);
  }
}
