/** What `done` does, stated against reference definitions: the three branches, the
    jobs the cascade dispatches, and what survives in the cache. */
module DoneFacts {
  import opened Results
  import opened Values
  import opened PhpArrays
  import opened Chains
  import opened Readiness
  import opened Engine

  /** The keys of the declared jobs that are ready on the given cache, in declared order. */
  function ReadyKeys(c: Chain, s: Store, jobs: seq<(string, JobSpec)>): seq<string>
    decreases |jobs|
  {
    if |jobs| == 0 then []
    else (if IsReady(c, s, jobs[0].0, jobs[0].1) then [jobs[0].0] else []) + ReadyKeys(c, s, jobs[1..])
  }

  /** The filter keeps exactly the ready jobs, in declared order. */
  lemma {:induction false} ReadyJobsKeys(c: Chain, s: Store, jobs: seq<(string, JobSpec)>)
    requires ReadyJobs(c, s, jobs).Success?
    ensures Keys(ReadyJobs(c, s, jobs).value) == ReadyKeys(c, s, jobs)
    decreases |jobs|
  {
    if |jobs| > 0 {
      DependenciesMetIff(c, s, jobs[0].1);
      ReadyJobsKeys(c, s, jobs[1..]);
      var rest := ReadyJobs(c, s, jobs[1..]).value;
      KeysCons(jobs[0], rest);
    }
  }

  /** Every ready key belongs to a declared job that is ready and not yet flagged,
      and no ready key repeats when the declared keys do not. */
  lemma {:induction false} ReadyKeysSound(c: Chain, s: Store, jobs: seq<(string, JobSpec)>)
    ensures forall k :: k in ReadyKeys(c, s, jobs) ==> k in Keys(jobs) && !Flagged(c, s, k)
    ensures Distinct(Keys(jobs)) ==> Distinct(ReadyKeys(c, s, jobs))
    decreases |jobs|
  {
    if |jobs| > 0 {
      ReadyKeysSound(c, s, jobs[1..]);
      assert Keys(jobs) == [jobs[0].0] + Keys(jobs[1..]);
      var head := if IsReady(c, s, jobs[0].0, jobs[0].1) then [jobs[0].0] else [];
      if Distinct(Keys(jobs)) {
        assert Distinct(Keys(jobs[1..]));
        DistinctAppend(head, ReadyKeys(c, s, jobs[1..]));
      }
    }
  }

  /** A response key differs from the latch key unless the job is named `done`. */
  lemma ResponseIsNotLatch(c: Chain, k: string)
    requires k != "done"
    ensures ResponseKey(c, k) != LatchKey(c)
  {
    ResponseKeyShape(c, "done");
    if StrTruthy(k) {
      ResponseKeysDistinct(c, k, "done");
    } else {
      ResponseKeyShape(c, k);
      assert |ResponseKey(c, k)| < |LatchKey(c)|;
    }
  }

  /** The cascade on a cache: a falsy declared key throws before anything is
      dispatched; otherwise the ready jobs are dispatched in declared order, up to the
      first that throws (all of them when none does); each dispatched job was not
      flagged and is flagged afterwards, no job is dispatched twice, no flag is lost,
      and nothing but flags is written. */
  lemma CascadeFacts(c: Chain, s: Store, events: seq<Event>)
    ensures Cascade(c, s, events).events == events
    ensures (exists i :: 0 <= i < |c.jobs| && !StrTruthy(c.jobs[i].0)) ==>
      Cascade(c, s, events) == Outcome(s, events, [], Some(SuffixWithoutKey))
    ensures (forall i :: 0 <= i < |c.jobs| ==> StrTruthy(c.jobs[i].0)) ==>
      && |Cascade(c, s, events).dispatched| <= |ReadyKeys(c, s, c.jobs)|
      && DispatchKeys(Cascade(c, s, events).dispatched) == ReadyKeys(c, s, c.jobs)[..|Cascade(c, s, events).dispatched|]
      && (Cascade(c, s, events).failure.None? <==> |Cascade(c, s, events).dispatched| == |ReadyKeys(c, s, c.jobs)|)
    ensures forall k :: k in DispatchKeys(Cascade(c, s, events).dispatched) ==>
      !Flagged(c, s, k) && Flagged(c, Cascade(c, s, events).store, k)
    ensures Distinct(DispatchKeys(Cascade(c, s, events).dispatched))
    ensures forall k :: Flagged(c, s, k) ==> Flagged(c, Cascade(c, s, events).store, k)
    ensures forall x :: x !in FlagKeys(c, DispatchKeys(Cascade(c, s, events).dispatched)) ==>
      StoreGet(Cascade(c, s, events).store, x) == StoreGet(s, x)
  {
    CascadeOrder(c, s, events);
    CascadeFresh(c, s, events);
    CascadeStore(c, s, events);
  }

  lemma CascadeOrder(c: Chain, s: Store, events: seq<Event>)
    ensures (forall i :: 0 <= i < |c.jobs| ==> StrTruthy(c.jobs[i].0)) ==>
      && |Cascade(c, s, events).dispatched| <= |ReadyKeys(c, s, c.jobs)|
      && DispatchKeys(Cascade(c, s, events).dispatched) == ReadyKeys(c, s, c.jobs)[..|Cascade(c, s, events).dispatched|]
      && (Cascade(c, s, events).failure.None? <==> |Cascade(c, s, events).dispatched| == |ReadyKeys(c, s, c.jobs)|)
  {
    var r := ReadyJobs(c, s, c.jobs);
    if r.Success? {
      ReadyJobsKeys(c, s, c.jobs);
    }
  }

  lemma CascadeFresh(c: Chain, s: Store, events: seq<Event>)
    ensures forall k :: k in DispatchKeys(Cascade(c, s, events).dispatched) ==> !Flagged(c, s, k)
    ensures Distinct(DispatchKeys(Cascade(c, s, events).dispatched))
  {
    var r := ReadyJobs(c, s, c.jobs);
    if r.Success? {
      ReadyJobsKeys(c, s, c.jobs);
      ReadyKeysSound(c, s, c.jobs);
      var ks := ReadyKeys(c, s, c.jobs);
      var dk := DispatchKeys(DispatchEach(c, s, r.value).dispatched);
      assert dk == ks[..|dk|];
      PrefixFacts(ks, |dk|);
    }
  }

  lemma PrefixFacts(ks: seq<string>, n: nat)
    requires n <= |ks|
    ensures forall k :: k in ks[..n] ==> k in ks
    ensures Distinct(ks) ==> Distinct(ks[..n])
  {
  }

  lemma CascadeStore(c: Chain, s: Store, events: seq<Event>)
    ensures forall k :: k in DispatchKeys(Cascade(c, s, events).dispatched) ==> Flagged(c, Cascade(c, s, events).store, k)
    ensures forall k :: Flagged(c, s, k) ==> Flagged(c, Cascade(c, s, events).store, k)
    ensures forall x :: x !in FlagKeys(c, DispatchKeys(Cascade(c, s, events).dispatched)) ==>
      StoreGet(Cascade(c, s, events).store, x) == StoreGet(s, x)
  {
    var r := ReadyJobs(c, s, c.jobs);
    if r.Success? {
      DispatchEachStore(c, s, r.value);
    }
  }

  /** A truthy error fires one error event and changes nothing else. */
  lemma DoneOnError(c: Chain, key: string, error: Value, response: Value, s: Store)
    requires Truthy(error)
    ensures Done(c, key, error, response, s) == Outcome(s, [ErrorEvent(key, error)], [], None)
  {
  }

  /** The first completion of the terminal job fires one done event, sets the latch,
      stores no response, dispatches nothing and writes nothing else. */
  lemma DoneOnTerminal(c: Chain, key: string, error: Value, response: Value, s: Store)
    requires !Truthy(error) && !IsDone(c, s) && key == c.done
    ensures var o := Done(c, key, error, response, s);
      && o.events == [DoneEvent(key, response)]
      && o.dispatched == []
      && o.failure.None?
      && IsDone(c, o.store)
      && forall x :: x != LatchKey(c) ==> StoreGet(o.store, x) == StoreGet(s, x)
  {
  }

  /** Any other successful completion, a repeated completion of the terminal job
      included, fires one response event, stores the response and runs the cascade on
      the cache with that response in it; the response survives unless the job key
      contains a dot. */
  lemma DoneCascade(c: Chain, key: string, error: Value, response: Value, s: Store)
    requires !Truthy(error) && (IsDone(c, s) || key != c.done)
    ensures var o := Done(c, key, error, response, s);
      var s1 := s[ResponseKey(c, key) := response];
      && o == Cascade(c, s1, [ResponseEvent(key, response)])
      && o.events == [ResponseEvent(key, response)]
      && ((forall i :: 0 <= i < |c.jobs| ==> StrTruthy(c.jobs[i].0)) && o.failure.None? ==>
            DispatchKeys(o.dispatched) == ReadyKeys(c, s1, c.jobs))
      && ('.' !in key ==> StoreGet(o.store, ResponseKey(c, key)) == response)
  {
    var s1 := s[ResponseKey(c, key) := response];
    var o := Done(c, key, error, response, s);
    CascadeOrder(c, s1, [ResponseEvent(key, response)]);
    CascadeStore(c, s1, [ResponseEvent(key, response)]);
    if '.' !in key {
      forall k | k in DispatchKeys(o.dispatched) ensures DispatchedKey(c, k) != ResponseKey(c, key) {
        assert Flagged(c, o.store, k);
        FlagIsNotResponse(c, k, key);
      }
    }
  }

  /** A completion whose key contains no dot never clears a dispatched flag. */
  lemma DoneKeepsFlags(c: Chain, key: string, error: Value, response: Value, s: Store)
    requires '.' !in key
    ensures forall k :: Flagged(c, s, k) ==> Flagged(c, Done(c, key, error, response, s).store, k)
  {
    if Truthy(error) {
    } else if !IsDone(c, s) && key == c.done {
      forall k | Flagged(c, s, k) ensures Flagged(c, s[LatchKey(c) := Int(1)], k) {
        FlagIsNotLatch(c, k);
      }
    } else {
      var s1 := s[ResponseKey(c, key) := response];
      PutResponseFlags(c, s, key, response);
      CascadeStore(c, s1, [ResponseEvent(key, response)]);
    }
  }

  /** A completion whose key contains no dot dispatches only jobs that were not
      flagged before it, each once, and leaves each of them flagged. */
  lemma DoneNeverRedispatches(c: Chain, key: string, error: Value, response: Value, s: Store)
    requires '.' !in key
    ensures var o := Done(c, key, error, response, s);
      && Distinct(DispatchKeys(o.dispatched))
      && forall k :: k in DispatchKeys(o.dispatched) ==> !Flagged(c, s, k) && Flagged(c, o.store, k)
  {
    var o := Done(c, key, error, response, s);
    if !Truthy(error) && (IsDone(c, s) || key != c.done) {
      var s1 := s[ResponseKey(c, key) := response];
      CascadeFresh(c, s1, [ResponseEvent(key, response)]);
      CascadeStore(c, s1, [ResponseEvent(key, response)]);
      PutResponseFlags(c, s, key, response);
    }
  }

  /** Storing a response under a dot-free key changes no flag. */
  lemma PutResponseFlags(c: Chain, s: Store, key: string, v: Value)
    requires '.' !in key
    ensures forall k :: Flagged(c, s[ResponseKey(c, key) := v], k) <==> Flagged(c, s, k)
  {
    forall k | StrTruthy(k) ensures DispatchedKey(c, k) != ResponseKey(c, key) {
      FlagIsNotResponse(c, k, key);
    }
  }

  /** Once the latch is set, a completion of a job not named `done` keeps it set and
      fires no done event. */
  lemma DoneLatchPersists(c: Chain, key: string, error: Value, response: Value, s: Store)
    requires IsDone(c, s) && key != "done"
    ensures var o := Done(c, key, error, response, s);
      && IsDone(c, o.store)
      && forall e :: e in o.events ==> !e.DoneEvent?
  {
    if !Truthy(error) {
      ResponseIsNotLatch(c, key);
      var s1 := s[ResponseKey(c, key) := response];
      assert IsDone(c, s1);
      CascadeKeepsLatch(c, s1, [ResponseEvent(key, response)]);
    }
  }

  /** The cascade never writes the latch. */
  lemma CascadeKeepsLatch(c: Chain, s: Store, events: seq<Event>)
    ensures StoreGet(Cascade(c, s, events).store, LatchKey(c)) == StoreGet(s, LatchKey(c))
  {
    var o := Cascade(c, s, events);
    CascadeStore(c, s, events);
    forall k | k in DispatchKeys(o.dispatched) ensures DispatchedKey(c, k) != LatchKey(c) {
      assert Flagged(c, o.store, k);
      FlagIsNotLatch(c, k);
    }
  }

  /** As written, a job named `done` shares its response key with the latch: its
      completion with a null response clears a set latch, so the terminal job's next
      completion fires the done event a second time. */
  lemma DoneNamedJobClearsLatch(c: Chain, s: Store)
    requires IsDone(c, s)
    ensures !IsDone(c, Done(c, "done", Null, Null, s).store)
  {
    var s1 := s[ResponseKey(c, "done") := Null];
    CascadeKeepsLatch(c, s1, [ResponseEvent("done", Null)]);
  }

  /** A declared job with no `job`-tagged `data` entry, not yet flagged, is ready on
      any cache: after the first completion the cascade dispatches it, whatever its
      parameters reference. */
  lemma UnguardedJobReady(c: Chain, s: Store, i: nat)
    requires i < |c.jobs|
    requires forall v :: Tagged("job", v) !in c.jobs[i].1.data
    requires !Flagged(c, s, c.jobs[i].0)
    ensures c.jobs[i].0 in ReadyKeys(c, s, c.jobs)
  {
    DependenciesMetIff(c, s, c.jobs[i].1);
    ReadyKeysComplete(c, s, c.jobs, i);
  }

  lemma {:induction false} ReadyKeysComplete(c: Chain, s: Store, jobs: seq<(string, JobSpec)>, i: nat)
    requires i < |jobs| && IsReady(c, s, jobs[i].0, jobs[i].1)
    ensures jobs[i].0 in ReadyKeys(c, s, jobs)
    decreases i
  {
    if i > 0 {
      ReadyKeysComplete(c, s, jobs[1..], i - 1);
    }
  }
}
