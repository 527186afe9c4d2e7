/** What the issue loop reads of a pull request, and the decision it takes from it. */
module PullRequests {

  datatype PullState = Open | Merged | Closed

  datatype Conclusion =
    | Success
    | Failure | Error | TimedOut | StartupFailure | ActionRequired
    | Pending | Queued | InProgress | Expected | Waiting | Requested | Unreported
    | Other(name: string)  // skipped, neutral, cancelled, stale, ...

  datatype Check = Check(name: string, conclusion: Conclusion)

  datatype ReviewDecision = Undecided | Approved | ChangesRequested | ReviewRequired

  datatype PullRequest = PullRequest(
    number: nat,
    head: string,
    state: PullState,
    draft: bool,
    dirty: bool,  // GitHub's merge state: conflicts with its base
    body: string,
    checks: seq<Check>,
    blockingReviews: seq<string>,
    reviewDecision: ReviewDecision)

  datatype Decision = WaitingForPR | MarkReady | StillPending | AutoMerge | Held | Approve | Reject | Drop

  predicate HasFailed(c: Conclusion) {
    c.Failure? || c.Error? || c.TimedOut? || c.StartupFailure? || c.ActionRequired?
  }

  predicate IsPending(c: Conclusion) {
    c.Pending? || c.Queued? || c.InProgress? || c.Expected? || c.Waiting? || c.Requested? || c.Unreported?
  }

  function FailedChecks(checks: seq<Check>): seq<Check> {
    if checks == [] then []
    else (if HasFailed(checks[0].conclusion) then [checks[0]] else []) + FailedChecks(checks[1..])
  }

  predicate PendingChecks(checks: seq<Check>) {
    checks != [] && (IsPending(checks[0].conclusion) || PendingChecks(checks[1..]))
  }

  /** A failed round: another one, or the last. */
  function Fail(round: nat, maxRounds: nat): Decision {
    if round >= maxRounds then Drop else Reject
  }

  /** decidePullRequest */
  function Decide(pr: PullRequest, round: nat, maxRounds: nat): Decision {
    if pr.state == Merged then Approve
    else if pr.state == Closed then Drop
    else if pr.dirty then Fail(round, maxRounds)
    else if pr.draft then MarkReady
    else
      var failed := FailedChecks(pr.checks);
      var findings := pr.blockingReviews + (if pr.reviewDecision == ChangesRequested then ["changes requested by review"] else []);
      if failed == [] && findings == [] then
        if pr.checks == [] || PendingChecks(pr.checks) then StillPending
        else if pr.reviewDecision == ReviewRequired then StillPending
        else AutoMerge
      else Fail(round, maxRounds)
  }

  /** decideMissingPullRequest */
  function DecideMissing(round: nat, maxRounds: nat): Decision {
    Fail(round, maxRounds)
  }

  /** The state of a pull request that may be merged, as far as the pull request itself says. */
  ghost predicate Green(pr: PullRequest) {
    && pr.state == Open && !pr.draft && !pr.dirty
    && pr.checks != []
    && (forall c :: c in pr.checks ==> !HasFailed(c.conclusion) && !IsPending(c.conclusion))
    && pr.blockingReviews == [] && pr.reviewDecision != ChangesRequested && pr.reviewDecision != ReviewRequired
  }

  lemma {:induction false} FailedAndPending(checks: seq<Check>)
    ensures FailedChecks(checks) == [] <==> forall c :: c in checks ==> !HasFailed(c.conclusion)
    ensures !PendingChecks(checks) <==> forall c :: c in checks ==> !IsPending(c.conclusion)
  {
    if checks != [] {
      FailedAndPending(checks[1..]);
      assert checks == [checks[0]] + checks[1..];
    }
  }

  /** The loop decides to merge exactly on a green pull request, whatever the round. */
  lemma MergesOnlyGreen(pr: PullRequest, round: nat, maxRounds: nat)
    ensures Decide(pr, round, maxRounds) == AutoMerge <==> Green(pr)
  {
    FailedAndPending(pr.checks);
  }

  /**
   * A round fails exactly on an open pull request that conflicts, or that is no draft and has a
   * failed check or a finding; it is the last one exactly when the rounds are used up.
   */
  lemma FailsExactly(pr: PullRequest, round: nat, maxRounds: nat)
    requires pr.state == Open
    ensures (Decide(pr, round, maxRounds) in {Reject, Drop}) <==>
            || pr.dirty
            || (!pr.draft && ((exists c :: c in pr.checks && HasFailed(c.conclusion))
                              || pr.blockingReviews != [] || pr.reviewDecision == ChangesRequested))
    ensures Decide(pr, round, maxRounds) == Drop ==> round >= maxRounds
    ensures Decide(pr, round, maxRounds) == Reject ==> round < maxRounds
  {
    FailedAndPending(pr.checks);
  }

  /** A conclusion against the change. */
  predicate IsRed(c: Conclusion) {
    c in {Failure, Error, TimedOut, StartupFailure, ActionRequired}
  }

  /** A check that has not concluded. */
  predicate IsOpenCheck(c: Conclusion) {
    c in {Pending, Queued, InProgress, Expected, Waiting, Requested, Unreported}
  }

  /** A round on this request fails: it conflicts with its base, or it is ready and a check or a reviewer says no. */
  predicate FailsRound(pr: PullRequest) {
    && pr.state == Open
    && (pr.dirty
        || (!pr.draft && ((exists c :: c in pr.checks && IsRed(c.conclusion))
                          || pr.blockingReviews != [] || pr.reviewDecision == ChangesRequested)))
  }

  /** Nothing speaks against the request, but not everything has spoken. */
  predicate Waits(pr: PullRequest) {
    && pr.state == Open && !pr.draft && !FailsRound(pr)
    && (pr.checks == [] || (exists c :: c in pr.checks && IsOpenCheck(c.conclusion)) || pr.reviewDecision == ReviewRequired)
  }

  /** When each decision is taken; there are no others. */
  lemma DecidesExactly(pr: PullRequest, round: nat, maxRounds: nat)
    ensures Decide(pr, round, maxRounds) == Approve <==> pr.state == Merged
    ensures Decide(pr, round, maxRounds) == Drop <==> pr.state == Closed || (FailsRound(pr) && round >= maxRounds)
    ensures Decide(pr, round, maxRounds) == Reject <==> FailsRound(pr) && round < maxRounds
    ensures Decide(pr, round, maxRounds) == MarkReady <==> pr.state == Open && pr.draft && !pr.dirty
    ensures Decide(pr, round, maxRounds) == StillPending <==> Waits(pr)
    ensures Decide(pr, round, maxRounds) == AutoMerge <==>
              && pr.state == Open && !pr.draft && !pr.dirty && pr.checks != []
              && (forall c :: c in pr.checks ==> !IsRed(c.conclusion) && !IsOpenCheck(c.conclusion))
              && pr.blockingReviews == [] && pr.reviewDecision in {Undecided, Approved}
    ensures Decide(pr, round, maxRounds) in {Approve, Drop, Reject, MarkReady, StillPending, AutoMerge}
  {
    FailedAndPending(pr.checks);
  }
}
