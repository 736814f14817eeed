/** A run followed by any sequence of completions: each job is dispatched at most
    once and the done event fires at most once, provided the completion keys keep
    clear of the key collisions `getCacheKey` allows. */
module History {
  import opened Results
  import opened Values
  import opened PhpArrays
  import opened Chains
  import opened Readiness
  import opened Engine
  import opened RunFacts
  import opened DoneFacts

  /** One call of `done`. */
  datatype Completion = Completion(key: string, error: Value, response: Value)

  /** The cache after a sequence of calls, and everything they fired and dispatched. */
  datatype Trace = Trace(store: Store, events: seq<Event>, dispatched: seq<Dispatch>)

  /** The completions applied one after another; an exception ends its own call only. */
  function Replay(c: Chain, s: Store, cs: seq<Completion>): Trace
    decreases |cs|
  {
    if |cs| == 0 then Trace(s, [], [])
    else
      var o := Done(c, cs[0].key, cs[0].error, cs[0].response, s);
      var t := Replay(c, o.store, cs[1..]);
      Trace(t.store, o.events + t.events, o.dispatched + t.dispatched)
  }

  /** No completion key contains a dot. */
  predicate DotFree(cs: seq<Completion>) {
    forall i :: 0 <= i < |cs| ==> '.' !in cs[i].key
  }

  /** The number of done events. */
  function DoneCount(events: seq<Event>): nat
    decreases |events|
  {
    if |events| == 0 then 0
    else (if events[0].DoneEvent? then 1 else 0) + DoneCount(events[1..])
  }

  lemma {:induction false} DoneCountAppend(x: seq<Event>, y: seq<Event>)
    ensures DoneCount(x + y) == DoneCount(x) + DoneCount(y)
    decreases |x|
  {
    if |x| > 0 {
      assert (x + y)[1..] == x[1..] + y;
      DoneCountAppend(x[1..], y);
    } else {
      assert x + y == y;
    }
  }

  lemma DoneCountNone(events: seq<Event>)
    requires forall e :: e in events ==> !e.DoneEvent?
    ensures DoneCount(events) == 0
    decreases |events|
  {
    if |events| > 0 {
      assert events[0] in events;
      assert forall e :: e in events[1..] ==> e in events;
      DoneCountNone(events[1..]);
    }
  }

  /** Across any sequence of dot-free completions, no job is dispatched twice, every
      dispatched job was unflagged at the start and is flagged at the end, and no
      flag is lost. */
  lemma {:induction false} ReplayDispatchesOnce(c: Chain, s: Store, cs: seq<Completion>)
    requires DotFree(cs)
    ensures var t := Replay(c, s, cs);
      && Distinct(DispatchKeys(t.dispatched))
      && (forall k :: k in DispatchKeys(t.dispatched) ==> !Flagged(c, s, k) && Flagged(c, t.store, k))
      && (forall k :: Flagged(c, s, k) ==> Flagged(c, t.store, k))
    decreases |cs|
  {
    if |cs| > 0 {
      var d := cs[0];
      var o := Done(c, d.key, d.error, d.response, s);
      assert d.key == cs[0].key && '.' !in d.key;
      DoneNeverRedispatches(c, d.key, d.error, d.response, s);
      DoneKeepsFlags(c, d.key, d.error, d.response, s);
      assert DotFree(cs[1..]);
      ReplayDispatchesOnce(c, o.store, cs[1..]);
      var rest := Replay(c, o.store, cs[1..]);
      var a := DispatchKeys(o.dispatched);
      var b := DispatchKeys(rest.dispatched);
      DispatchKeysAppend(o.dispatched, rest.dispatched);
      DistinctAppend(a, b);
    }
  }

  /** Across any sequence of completions none of whose keys is `done`, the
      done event fires at most once, never once the latch was set, and the latch is
      set at the end whenever it fired. */
  lemma {:induction false} ReplayDoneOnce(c: Chain, s: Store, cs: seq<Completion>)
    requires forall i :: 0 <= i < |cs| ==> cs[i].key != "done"
    ensures DoneCount(Replay(c, s, cs).events) <= (if IsDone(c, s) then 0 else 1)
    ensures IsDone(c, s) || DoneCount(Replay(c, s, cs).events) == 1 ==> IsDone(c, Replay(c, s, cs).store)
    decreases |cs|
  {
    if |cs| > 0 {
      var d := cs[0];
      var o := Done(c, d.key, d.error, d.response, s);
      ReplayDoneOnce(c, o.store, cs[1..]);
      var rest := Replay(c, o.store, cs[1..]);
      DoneCountAppend(o.events, rest.events);
      if IsDone(c, s) {
        DoneLatchPersists(c, d.key, d.error, d.response, s);
        DoneCountNone(o.events);
      } else if !Truthy(d.error) && d.key == c.done {
        DoneOnTerminal(c, d.key, d.error, d.response, s);
        assert DoneCount(o.events) == 1;
      } else {
        assert |o.events| == 1 && !o.events[0].DoneEvent?;
        assert DoneCount(o.events) == 0;
      }
    }
  }

  /** The root keys come from the declared keys, without repeats. */
  lemma {:induction false} RootKeysSound(c: Chain, jobs: seq<(string, JobSpec)>)
    ensures Distinct(Keys(jobs)) ==> Distinct(RootKeys(c, jobs))
    ensures forall k :: k in RootKeys(c, jobs) ==> k in Keys(jobs)
    decreases |jobs|
  {
    if |jobs| > 0 {
      RootKeysSound(c, jobs[1..]);
      assert Keys(jobs) == [jobs[0].0] + Keys(jobs[1..]);
      var head := if NoJobRef(c, jobs[0].1) then [jobs[0].0] else [];
      if Distinct(Keys(jobs)) {
        assert Distinct(Keys(jobs[1..]));
        DistinctAppend(head, RootKeys(c, jobs[1..]));
      }
    }
  }

  /** A run followed by any sequence of dot-free completions dispatches no job twice. */
  lemma RunThenReplayOnce(c: Chain, runId: string, user: Option<string>, inputs: Dict<Value>, s: Store, cs: seq<Completion>)
    requires DotFree(cs)
    ensures var (c', o) := Run(c, runId, user, inputs, s);
      Distinct(DispatchKeys(o.dispatched + Replay(c', o.store, cs).dispatched))
  {
    var (c', o) := Run(c, runId, user, inputs, s);
    RunDispatchesRoots(c, runId, user, inputs, s);
    var n := Reach(c', inputs, c.jobs);
    PrefixDistinct(c.jobs, n);
    RootKeysSound(c', c.jobs[..n]);
    ReplayDispatchesOnce(c', o.store, cs);
    var t := Replay(c', o.store, cs);
    DispatchKeysAppend(o.dispatched, t.dispatched);
    DistinctAppend(DispatchKeys(o.dispatched), DispatchKeys(t.dispatched));
  }
}
