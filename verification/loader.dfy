/** Finding a chain file by name in a list of directories, and running the chain it
    holds. The filesystem is the `present` predicate; reading and parsing the file
    is the `build` function. */
module Loader {
  import opened Results
  import opened Values
  import opened PhpStrings
  import opened PhpArrays
  import opened Chains
  import opened Engine

  /** The file tried for a chain name in one directory: dots in the name become
      directory separators, and `.yml` is appended. */
  function Candidate(path: string, chain: string): string {
    path + "/" + ReplaceChar(chain, '.', '/') + ".yml"
  }

  /** `load`: the directories are tried in order; the first candidate that exists
      is the chain file; when none exists the chain is not found. */
  function Load(paths: seq<string>, present: string -> bool, chain: string): (r: Result<string, ChainError>)
    ensures r.Failure? <==> forall i :: 0 <= i < |paths| ==> !present(Candidate(paths[i], chain))
    ensures r.Failure? ==> r.error == ChainNotFound
    ensures r.Success? ==> exists i ::
      && 0 <= i < |paths|
      && r.value == Candidate(paths[i], chain)
      && present(r.value)
      && forall j :: 0 <= j < i ==> !present(Candidate(paths[j], chain))
    decreases |paths|
  {
    if |paths| == 0 then Failure(ChainNotFound)
    else if present(Candidate(paths[0], chain)) then Success(Candidate(paths[0], chain))
    else
      var r := Load(paths[1..], present, chain);
      assert forall i :: 1 <= i < |paths| ==> paths[i] == paths[1..][i - 1];
      r
  }

  /** Directories after the one that holds the file are never consulted; when the
      earlier directories hold nothing, the later ones decide. */
  lemma {:induction false} LoadAppend(p1: seq<string>, p2: seq<string>, present: string -> bool, chain: string)
    ensures Load(p1 + p2, present, chain) ==
      if Load(p1, present, chain).Success? then Load(p1, present, chain) else Load(p2, present, chain)
    decreases |p1|
  {
    if |p1| == 0 {
      assert p1 + p2 == p2;
    } else {
      assert (p1 + p2)[0] == p1[0];
      assert (p1 + p2)[1..] == p1[1..] + p2;
      LoadAppend(p1[1..], p2, present, chain);
    }
  }

  /** The dots of the chain name never reach the file name: a name with dots and the
      same name with slashes find the same file. */
  lemma CandidateDotsAreSlashes(path: string, chain: string)
    ensures '.' !in ReplaceChar(chain, '.', '/')
    ensures Candidate(path, chain) == Candidate(path, ReplaceChar(chain, '.', '/'))
  {
    var t := ReplaceChar(chain, '.', '/');
    assert forall i :: 0 <= i < |t| ==> t[i] != '.';
    assert ReplaceChar(t, '.', '/') == t;
  }

  /** The loader's `run`: the chain is found and built, then run with the given
      parameters. */
  function LoaderRun(paths: seq<string>, present: string -> bool, build: string -> Result<Chain, ChainError>,
                     chain: string, runId: string, user: Option<string>, inputs: Dict<Value>, s: Store)
    : (r: Result<(Chain, Outcome), ChainError>)
    ensures Load(paths, present, chain).Failure? ==> r == Failure(ChainNotFound)
    ensures r.Success? ==>
      && Load(paths, present, chain).Success?
      && build(Load(paths, present, chain).value).Success?
      && r.value == Run(build(Load(paths, present, chain).value).value, runId, user, inputs, s)
  {
    var file :- Load(paths, present, chain);
    var c :- build(file);
    Success(Run(c, runId, user, inputs, s))
  }
}
