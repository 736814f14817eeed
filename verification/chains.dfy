/** A job chain: its declared jobs, terminal key, namespace, notification routes
    and run identity, how it is built from configuration, and how every cache key
    of a run is formed. */
module Chains {
  import opened Results
  import opened Values
  import opened PhpStrings
  import opened PhpArrays

  /** A parameter template: a plain value, or a YAML custom tag (`!job x`,
      `!param y`) with its scalar. */
  datatype Param = Plain(v: Value) | Tagged(tag: string, value: string)

  /** A tag split into its leading word and the words after it. */
  datatype TagParts = TagParts(name: string, args: seq<string>)

  /** One declared job: the class to instantiate, its constructor parameters, and
      the `data` entries the readiness test inspects (only their values matter). */
  datatype JobSpec = JobSpec(jobType: string, params: Dict<Param>, data: seq<Param>)

  /** A configured notification route: optional visibility and route template. */
  datatype ChannelConfig = ChannelConfig(visibility: Option<string>, route: Option<string>)

  /** The parsed chain file. Absent entries are `None`; lifetime is not modelled. */
  datatype Config = Config(
    name: Option<string>,
    jobs: Dict<JobSpec>,
    done: Option<string>,
    channels: seq<ChannelConfig>,
    namespace: Option<string>)

  /** A chain bound to a run. `split` is how a tag is cut into a leading word and
      further words; it stands for the regular-expression split the source uses. */
  datatype Chain = Chain(
    name: string,
    jobs: Dict<JobSpec>,
    done: string,
    namespace: string,
    channels: seq<ChannelConfig>,
    runId: string,
    user: Option<string>,
    split: string -> TagParts)

  /** The exceptions the engine can throw. */
  datatype ChainError =
    | MissingParameter(name: string)
    | UnhandledTag(tag: string, value: string)
    | MissingJobKey
    | SuffixWithoutKey
    | NoTerminalJob
    | ChainNotFound

  /** A parameter whose tag's leading word is `job`. */
  predicate IsJobRef(c: Chain, p: Param) {
    p.Tagged? && c.split(p.tag).name == "job"
  }

  /** A `param` tag with no default naming an input the caller did not supply. */
  predicate NeedsInput(c: Chain, inputs: Dict<Value>, p: Param) {
    && p.Tagged?
    && c.split(p.tag).name == "param"
    && !ArrHas(inputs, p.value)
    && |c.split(p.tag).args| == 0
  }

  /** Characters `trim` removes from the namespace: backslash and PHP's default
      whitespace list. */
  const NamespaceTrim: set<char> := {'\\', ' ', '\n', '\r', '\t', '\U{B}', '\0'}

  /** The constructor: the configured name overrides the given one, the terminal
      key defaults to the last declared job, routes default to none and the
      namespace is trimmed. Without jobs and without a terminal key the typed
      property cannot be set and construction fails. */
  function NewChain(name: string, cfg: Config, split: string -> TagParts): (r: Result<Chain, ChainError>)
    ensures r.Failure? <==> cfg.done.None? && |cfg.jobs| == 0
    ensures r.Failure? ==> r.error == NoTerminalJob
    ensures r.Success? ==>
      && r.value.name == cfg.name.GetOr(name)
      && r.value.jobs == cfg.jobs
      && r.value.channels == cfg.channels
      && r.value.user.None?
      && r.value.runId == ""
      && r.value.split == split
      && r.value.namespace == Trim(cfg.namespace.GetOr(""), NamespaceTrim)
    ensures r.Success? && cfg.done.None? ==>
      r.value.done in Keys(cfg.jobs) && r.value.done == Keys(cfg.jobs)[|cfg.jobs| - 1]
    ensures r.Success? && cfg.done.Some? ==> r.value.done == cfg.done.value
    ensures r.Success? ==> |r.value.namespace| <= |cfg.namespace.GetOr("")|
    ensures r.Success? && |r.value.namespace| > 0 ==>
      r.value.namespace[0] !in NamespaceTrim && r.value.namespace[|r.value.namespace| - 1] !in NamespaceTrim
  {
    if cfg.done.None? && |cfg.jobs| == 0 then Failure(NoTerminalJob)
    else
      var done := if cfg.done.Some? then cfg.done.value else cfg.jobs[|cfg.jobs| - 1].0;
      Success(Chain(cfg.name.GetOr(name), cfg.jobs, done, Trim(cfg.namespace.GetOr(""), NamespaceTrim),
                    cfg.channels, "", None, split))
  }

  /** The parts `getCacheKey` joins, with the falsy ones dropped. */
  function KeyParts(c: Chain, key: string, suffix: string): seq<string> {
    KeepTruthy(["job-chain", c.name, c.runId, key, suffix])
  }

  /** `getCacheKey`: a suffix without a (truthy) key is refused; otherwise the
      prefix, chain name, run id, key and suffix joined by dots, falsy parts dropped. */
  function CacheKey(c: Chain, key: string, suffix: string): (r: Result<string, ChainError>)
    ensures r.Failure? <==> StrTruthy(suffix) && !StrTruthy(key)
    ensures r.Failure? ==> r.error == SuffixWithoutKey
  {
    if StrTruthy(suffix) && !StrTruthy(key) then Failure(SuffixWithoutKey)
    else Success(Implode(".", KeyParts(c, key, suffix)))
  }

  /** The cache key of a job's stored response. */
  function ResponseKey(c: Chain, key: string): string {
    Implode(".", KeyParts(c, key, ""))
  }

  /** The cache key of a job's dispatched flag. */
  function DispatchedKey(c: Chain, key: string): string {
    Implode(".", KeyParts(c, key, "dispatched"))
  }

  /** The cache key of the run's completion latch. */
  function LatchKey(c: Chain): string {
    Implode(".", KeyParts(c, "done", ""))
  }

  /** What every key of the run starts with. */
  function RunPrefix(c: Chain): string {
    Implode(".", KeepTruthy(["job-chain", c.name, c.runId]))
  }

  /** The helper keys are exactly what `getCacheKey` returns for them. */
  lemma KeyHelpers(c: Chain, key: string)
    ensures CacheKey(c, key, "") == Success(ResponseKey(c, key))
    ensures StrTruthy(key) ==> CacheKey(c, key, "dispatched") == Success(DispatchedKey(c, key))
    ensures CacheKey(c, "done", "") == Success(LatchKey(c))
  {
  }

  lemma KeepTruthyPair(a: string, b: string)
    ensures KeepTruthy([a, b]) == (if StrTruthy(a) then [a] else []) + (if StrTruthy(b) then [b] else [])
  {
    assert [a, b][1..] == [b];
    assert [b][1..] == [];
    var tb := if StrTruthy(b) then [b] else [];
    assert KeepTruthy([b]) == tb + KeepTruthy([]);
    assert tb + [] == tb;
  }

  /** The key parts are the truthy prefix parts followed by the truthy key and suffix. */
  lemma KeyPartsSplit(c: Chain, key: string, suffix: string)
    ensures KeyParts(c, key, suffix)
         == KeepTruthy(["job-chain", c.name, c.runId]) + KeepTruthy([key, suffix])
    ensures |KeepTruthy(["job-chain", c.name, c.runId])| > 0
  {
    var pre := ["job-chain", c.name, c.runId];
    assert ["job-chain", c.name, c.runId, key, suffix] == pre + [key, suffix];
    KeepTruthyAppend(pre, [key, suffix]);
    KeepTruthyMembers(pre);
    assert "job-chain" in pre;
  }

  /** A truthy job key's response key is the run prefix, a dot and the key; a falsy
      one's is the bare run prefix. */
  lemma ResponseKeyShape(c: Chain, key: string)
    ensures StrTruthy(key) ==> ResponseKey(c, key) == RunPrefix(c) + "." + key
    ensures !StrTruthy(key) ==> ResponseKey(c, key) == RunPrefix(c)
  {
    var p := KeepTruthy(["job-chain", c.name, c.runId]);
    KeyPartsSplit(c, key, "");
    KeepTruthyPair(key, "");
    if StrTruthy(key) {
      assert KeyParts(c, key, "") == p + [key];
      ImplodeSnoc(".", p, key);
    } else {
      assert KeyParts(c, key, "") == p + [];
      assert p + [] == p;
    }
  }

  /** A truthy job key's flag key is the run prefix, the key and `dispatched`. */
  lemma DispatchedKeyShape(c: Chain, key: string)
    requires StrTruthy(key)
    ensures DispatchedKey(c, key) == RunPrefix(c) + "." + key + "." + "dispatched"
  {
    var p := KeepTruthy(["job-chain", c.name, c.runId]);
    KeyPartsSplit(c, key, "dispatched");
    KeepTruthyPair(key, "dispatched");
    JoinTwo(p, key, "dispatched");
  }

  /** Joining a non-empty list with two more parts. */
  lemma JoinTwo(p: seq<string>, a: string, b: string)
    requires |p| > 0
    ensures Implode(".", p + ([a] + [b])) == Implode(".", p) + "." + a + "." + b
  {
    assert p + ([a] + [b]) == (p + [a]) + [b];
    ImplodeSnoc(".", p + [a], b);
    ImplodeSnoc(".", p, a);
  }

  /** When no part contains a dot, splitting a cache key on dots gives back exactly
      the truthy parts in their order: the key encodes its parts unambiguously. */
  lemma CacheKeyDecodes(c: Chain, key: string, suffix: string)
    requires '.' !in c.name && '.' !in c.runId && '.' !in key && '.' !in suffix
    requires CacheKey(c, key, suffix).Success?
    ensures Explode('.', CacheKey(c, key, suffix).value) == KeyParts(c, key, suffix)
  {
    var parts := KeyParts(c, key, suffix);
    KeepTruthyMembers(["job-chain", c.name, c.runId, key, suffix]);
    assert "job-chain" in ["job-chain", c.name, c.runId, key, suffix];
    assert forall i :: 0 <= i < |parts| ==> parts[i] in parts;
    ExplodeImplode('.', parts);
  }

  lemma DropPrefix(p: string, x: string, y: string)
    requires p + x == p + y
    ensures x == y
  {
    assert x == (p + x)[|p|..];
    assert y == (p + y)[|p|..];
  }

  /** Different truthy job keys have different response keys. */
  lemma ResponseKeysDistinct(c: Chain, k1: string, k2: string)
    requires StrTruthy(k1) && StrTruthy(k2) && k1 != k2
    ensures ResponseKey(c, k1) != ResponseKey(c, k2)
  {
    ResponseKeyShape(c, k1);
    ResponseKeyShape(c, k2);
    var p := RunPrefix(c) + ".";
    assert ResponseKey(c, k1) == p + k1 && ResponseKey(c, k2) == p + k2;
    assert (p + k1)[|p|..] == k1;
    assert (p + k2)[|p|..] == k2;
  }

  lemma PrefixInjective(p: string, x: string, y: string)
    requires x != y
    ensures p + x != p + y
  {
    assert (p + x)[|p|..] == x;
    assert (p + y)[|p|..] == y;
  }

  lemma SuffixInjective(x: string, y: string, t: string)
    requires x != y
    ensures x + t != y + t
  {
    if |x| == |y| {
      assert (x + t)[..|x|] == x;
      assert (y + t)[..|y|] == y;
    } else {
      assert |x + t| != |y + t|;
    }
  }

  /** Different truthy job keys have different flag keys. */
  lemma DispatchedKeysDistinct(c: Chain, k1: string, k2: string)
    requires StrTruthy(k1) && StrTruthy(k2) && k1 != k2
    ensures DispatchedKey(c, k1) != DispatchedKey(c, k2)
  {
    DispatchedKeyShape(c, k1);
    DispatchedKeyShape(c, k2);
    var p := RunPrefix(c) + ".";
    var tail := "." + "dispatched";
    SuffixInjective(k1, k2, tail);
    PrefixInjective(p, k1 + tail, k2 + tail);
    assert DispatchedKey(c, k1) == p + (k1 + tail);
    assert DispatchedKey(c, k2) == p + (k2 + tail);
  }

  /** No flag key is the response key of a job key without a dot. */
  lemma FlagIsNotResponse(c: Chain, k: string, k2: string)
    requires StrTruthy(k) && '.' !in k2
    ensures DispatchedKey(c, k) != ResponseKey(c, k2)
  {
    DispatchedKeyShape(c, k);
    ResponseKeyShape(c, k2);
    var p := RunPrefix(c) + ".";
    var s := k + ("." + "dispatched");
    assert DispatchedKey(c, k) == p + s;
    assert (p + s)[|p| + |k|] == s[|k|] == '.';
    if StrTruthy(k2) {
      assert ResponseKey(c, k2) == p + k2;
      assert forall i :: 0 <= i < |k2| ==> (p + k2)[|p| + i] == k2[i];
      assert forall i :: 0 <= i < |k2| ==> k2[i] != '.' by {
        forall i | 0 <= i < |k2| ensures k2[i] != '.' {
          assert k2[i] in k2;
        }
      }
    } else {
      assert |DispatchedKey(c, k)| > |ResponseKey(c, k2)|;
    }
  }

  /** No flag key is the latch key. */
  lemma FlagIsNotLatch(c: Chain, k: string)
    requires StrTruthy(k)
    ensures DispatchedKey(c, k) != LatchKey(c)
  {
    FlagIsNotResponse(c, k, "done");
  }

  /** As written, the flag key of job `k` is also the response key of a job named
      `k.dispatched`: keys containing dots can collide. */
  lemma FlagCollidesWithDottedResponse(c: Chain, k: string)
    requires StrTruthy(k)
    ensures DispatchedKey(c, k) == ResponseKey(c, k + ".dispatched")
  {
    var name := k + ".dispatched";
    DispatchedKeyShape(c, k);
    ResponseKeyShape(c, name);
    assert |name| > 1;
    DotDispatched();
    assert RunPrefix(c) + "." + k + "." + "dispatched" == RunPrefix(c) + "." + (k + ("." + "dispatched"));
  }

  lemma DotDispatched()
    ensures "." + "dispatched" == ".dispatched"
  {
  }
}
