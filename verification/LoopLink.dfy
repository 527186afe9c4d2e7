/** A tick of reconcile and the transition system of the loop take the same decision on a task in review. */
module LoopLink {
  import opened Text
  import opened PullRequests
  import IssueLoop
  import Reconcile

  /** The queue lists the task as the loop knows it, and the read of its pull request succeeded. */
  predicate Lists(s: IssueLoop.State, key: string, e: Reconcile.Entry) {
    && key in s.tasks && s.tasks[key].stage.InReview?
    && e.0.id == key && e.0.version == s.tasks[key].version && e.1.find.Ok?
  }

  /** A missing pull request is waited for. */
  predicate InGrace(e: Reconcile.Entry, nowMs: int) {
    e.1.find == Ok(None) && (e.0.updatedAtMs <= 0 || nowMs - e.0.updatedAtMs < Reconcile.MISSING_PR_GRACE_MS)
  }

  /**
   * A tick moves a task exactly when it can claim it and the loop's verdict on it ends it or sends it back; what it
   * moves it with is that verdict, and what the queue makes of it is the loop's review step.
   */
  lemma MovesAreReviews(c: IssueLoop.Config, s: IssueLoop.State, key: string, e: Reconcile.Entry, maxRounds: nat, nowMs: int,
                        cache: Reconcile.Cache)
    requires Lists(s, key, e) && maxRounds <= c.maxRounds
    ensures var pr := e.1.find.value;
      var verdict, acts := IssueLoop.Verdict(s.tasks[key], pr, maxRounds), Reconcile.ReviewActs(c.repo, e, maxRounds, nowMs, false, cache);
      && IssueLoop.Enabled(c, s, IssueLoop.Review(key, pr, maxRounds, e.1.moved))
      && (Reconcile.Move(key, verdict) in acts <==> e.1.claimed && verdict in {Approve, Reject, Drop} && !InGrace(e, nowMs))
      && (forall act :: act in acts && act.Move? ==> act == Reconcile.Move(key, verdict))
      && IssueLoop.After(c, s, IssueLoop.Review(key, pr, maxRounds, e.1.moved)) ==
           if e.1.moved then s.(tasks := s.tasks[key := IssueLoop.Moved(s.tasks[key], verdict)]) else s
  {
    hide Decide, Reconcile.Free;
    var pr := e.1.find.value;
    var verdict := IssueLoop.Verdict(s.tasks[key], pr, maxRounds);
    var acts := Reconcile.ReviewActs(c.repo, e, maxRounds, nowMs, false, cache);
    assert !InGrace(e, nowMs) ==> Reconcile.ReviewDecisionOn(e, maxRounds, nowMs) == verdict;
    if !InGrace(e, nowMs) && e.1.claimed && verdict in {Approve, Reject, Drop} {
      assert acts[0] == Reconcile.Move(key, verdict);
    }
  }
}
