/**
 * The gate in front of every merge: whether anything could have said no. It reads the branch's
 * required checks, the operator-only paths (once per run) and the changed files, and every read
 * that fails is a hold.
 */
module MergeGate {
  import opened Text
  import opened PullRequests
  import opened Glob

  const CORE_REPO := "lightwave-media/lightwave-core"

  /** Why a pull request waits for a person. */
  datatype Hold = Core | NoRequiredCheck | RequiredNotPassed(check: string) | OperatorPath(file: string, pattern: string) | Unverifiable

  /** The policy file as read: not at all, not as YAML, or with the paths it names. */
  datatype PolicyFile = Unreadable | Unparsable | Names(paths: seq<string>)

  /** What the three reads of one call to hold would answer. */
  datatype Reads = Reads(required: Result<seq<string>>, policy: PolicyFile, files: Result<seq<string>>)

  /** loadOperatorPaths: an empty list is refused. */
  function OperatorPaths(policy: PolicyFile): Result<seq<string>> {
    if policy.Names? && policy.paths != [] then Ok(policy.paths) else Err
  }

  predicate Passed(checks: seq<Check>, name: string) {
    exists c :: c in checks && c.name == name && c.conclusion == Success
  }

  /** requiredNotPassed: the first required check that is not SUCCESS. */
  method RequiredNotPassedYet(required: seq<string>, checks: seq<Check>) returns (missing: Option<string>)
    ensures missing == None <==> forall r :: r in required ==> Passed(checks, r)
    ensures missing.Some? ==> missing.value in required && !Passed(checks, missing.value)
  {
    var passed: set<string> := {};
    for i := 0 to |checks|
      invariant forall n :: n in passed <==> Passed(checks[..i], n)
    {
      assert checks[..i + 1] == checks[..i] + [checks[i]];
      if checks[i].conclusion == Success {
        passed := passed + {checks[i].name};
      }
    }
    assert checks[..|checks|] == checks;
    for i := 0 to |required|
      invariant forall r :: r in required[..i] ==> Passed(checks, r)
    {
      if required[i] !in passed {
        return Some(required[i]);
      }
    }
    return None;
  }

  /** Some changed file matches some operator pattern. */
  predicate TouchesOperatorPath(files: seq<string>, paths: seq<string>) {
    exists f, p :: f in files && p in paths && Accepts(p, f)
  }

  /** The path rule: the first (file, pattern) pair that matches. */
  method MatchOperatorPath(files: seq<string>, paths: seq<string>) returns (hit: Option<(string, string)>)
    ensures hit.Some? <==> TouchesOperatorPath(files, paths)
    ensures hit.Some? ==> hit.value.0 in files && hit.value.1 in paths && Accepts(hit.value.1, hit.value.0)
  {
    hide Accepts;
    for i := 0 to |files|
      invariant forall f, p :: f in files[..i] && p in paths ==> !Accepts(p, f)
    {
      for j := 0 to |paths|
        invariant forall p :: p in paths[..j] ==> !Accepts(p, files[i])
      {
        var matched := GlobMatch(paths[j], files[i]);
        if matched {
          return Some((files[i], paths[j]));
        }
      }
    }
    return None;
  }

  /** The operator paths: the ones kept from an earlier read of the run, else those read now. */
  function PathsInUse(cached: Option<Result<seq<string>>>, policy: PolicyFile): Result<seq<string>> {
    if cached.Some? then cached.value else OperatorPaths(policy)
  }

  /** What it takes for a merge, given the operator paths in use. */
  ghost predicate MayMerge(repo: string, pr: PullRequest, evidence: Reads, paths: Result<seq<string>>) {
    && repo != CORE_REPO
    && evidence.required.Ok? && evidence.required.value != []
    && (forall r :: r in evidence.required.value ==> Passed(pr.checks, r))
    && paths.Ok? && paths.value != []
    && evidence.files.Ok?
    && (forall f, p :: f in evidence.files.value && p in paths.value ==> !Accepts(p, f))
  }

  /** For ASCII patterns, what may merge touches no operator path in a file name without line breaks. */
  lemma MergesSpareOperatorPaths(repo: string, pr: PullRequest, evidence: Reads, paths: Result<seq<string>>, file: string, pattern: string)
    requires MayMerge(repo, pr, evidence, paths) && file in evidence.files.value && pattern in paths.value
    requires IsAscii(pattern) && OneLine(file)
    ensures !GlobMatches(pattern, file, true)
  {
    hide Accepts, GlobMatches, Passed;
    CompilerIsExactFor(pattern);
  }

  /** Whether a call to hold gets as far as the operator paths. */
  predicate ReachesPolicy(repo: string, pr: PullRequest, evidence: Reads) {
    && repo != CORE_REPO
    && evidence.required.Ok? && evidence.required.value != []
    && forall r :: r in evidence.required.value ==> Passed(pr.checks, r)
  }

  /** mergeGate: the operator paths of one reconcile run, read once. */
  class Gate {
    var loaded: bool
    var paths: Result<seq<string>>
    ghost var policyReads: nat

    /** The policy file is read at most once, and an empty list of paths is never kept. */
    ghost predicate Valid()
      reads this
    {
      && policyReads == (if loaded then 1 else 0)
      && (loaded && paths.Ok? ==> paths.value != [])
    }

    constructor ()
      ensures Valid() && !loaded
    {
      loaded, paths, policyReads := false, Err, 0;
    }

    /** The paths a hold uses: the cached ones, or those of the policy file as it reads now. */
    ghost function InUse(policy: PolicyFile): Result<seq<string>>
      reads this
    {
      PathsInUse(Cached(), policy)
    }

    ghost function Cached(): Option<Result<seq<string>>>
      reads this
    {
      if loaded then Some(paths) else None
    }

    method LoadOperatorPaths(policy: PolicyFile) returns (r: Result<seq<string>>)
      requires Valid()
      modifies this
      ensures Valid() && loaded
      ensures r == paths == old(InUse(policy))
    {
      if !loaded {
        paths := OperatorPaths(policy);
        policyReads := policyReads + 1;
        loaded := true;
      }
      r := paths;
    }

    /**
     * hold: nothing exactly when the pull request may merge on what was read; once the paths are
     * loaded they stay the paths of the whole run.
     */
    method HoldMerge(repo: string, pr: PullRequest, evidence: Reads) returns (why: Option<Hold>)
      requires Valid()
      modifies this
      ensures Valid()
      ensures why == None <==> MayMerge(repo, pr, evidence, old(InUse(evidence.policy)))
      ensures why == Some(Core) <==> repo == CORE_REPO
      ensures why == Some(NoRequiredCheck) <==> repo != CORE_REPO && evidence.required == Ok([])
      ensures why == Some(Unverifiable) <==>
                && repo != CORE_REPO
                && (evidence.required.Err?
                    || (ReachesPolicy(repo, pr, evidence) && (old(InUse(evidence.policy)).Err? || evidence.files.Err?)))
      ensures why.Some? && why.value.RequiredNotPassed? ==> evidence.required.Ok? && !Passed(pr.checks, why.value.check)
      ensures why.Some? && why.value.OperatorPath? ==>
                evidence.files.Ok? && paths.Ok? && why.value.file in evidence.files.value && why.value.pattern in paths.value
                && Accepts(why.value.pattern, why.value.file)
      ensures Cached() == if ReachesPolicy(repo, pr, evidence) then Some(old(InUse(evidence.policy))) else old(Cached())
    {
      hide Accepts;
      if repo == CORE_REPO {
        return Some(Core);
      }
      if evidence.required.Err? {
        return Some(Unverifiable);
      }
      if evidence.required.value == [] {
        return Some(NoRequiredCheck);
      }
      var missing := RequiredNotPassedYet(evidence.required.value, pr.checks);
      if missing.Some? {
        return Some(RequiredNotPassed(missing.value));
      }
      var operator := LoadOperatorPaths(evidence.policy);
      if operator.Err? {
        return Some(Unverifiable);
      }
      if evidence.files.Err? {
        return Some(Unverifiable);
      }
      var hit := MatchOperatorPath(evidence.files.value, operator.value);
      if hit.Some? {
        return Some(OperatorPath(hit.value.0, hit.value.1));
      }
      return None;
    }
  }
}
