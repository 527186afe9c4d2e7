/** What the order of `lw github pick` means in the words of the issues: labels, priority lines and dependencies. */
module PickRanks {
  import opened Text
  import opened GithubPick
  import IssueFields
  import SyncSays
  import Slugs

  // ----- labels

  /** The label starts with P and the digit n, in either case. */
  predicate LabelNames(name: string, n: nat)
    requires 1 <= n <= 4
  {
    |name| >= 2 && (name[0] == 'p' || name[0] == 'P') && name[1] == "01234"[n]
  }

  lemma LabelRankExactly(name: string, n: nat)
    requires 1 <= n <= 4
    ensures LabelRank(name) == Some(n) <==> LabelNames(name, n)
    ensures LabelRank(name).Some? ==> 1 <= LabelRank(name).value <= 4
  {
    var lower := Slugs.ToLower(name);
    if |name| >= 2 {
      LowerOf(name);
      assert lower[..2] == [lower[0], lower[1]];
    }
  }

  lemma LowerOf(name: string)
    requires |name| >= 2
    ensures var lower := Slugs.ToLower(name);
      && (lower[0] == 'p' <==> name[0] == 'p' || name[0] == 'P')
      && (IsDigit(lower[1]) || IsDigit(name[1]) ==> lower[1] == name[1])
  {
  }

  /** The label at i is the first that names a priority, and names Pn. */
  predicate FirstNames(issue: Issue, i: nat, n: nat)
    requires 1 <= n <= 4
  {
    && i < |issue.labels| && LabelNames(issue.labels[i], n)
    && forall j, m :: 0 <= j < i && 1 <= m <= 4 ==> !LabelNames(issue.labels[j], m)
  }

  predicate NoLabelNames(issue: Issue) {
    forall j, m :: 0 <= j < |issue.labels| && 1 <= m <= 4 ==> !LabelNames(issue.labels[j], m)
  }

  lemma NamesNothing(name: string)
    ensures LabelRank(name) == None <==> forall m :: 1 <= m <= 4 ==> !LabelNames(name, m)
  {
    LabelRankExactly(name, 1);
    LabelRankExactly(name, 2);
    LabelRankExactly(name, 3);
    LabelRankExactly(name, 4);
    hide LabelRank, LabelNames;
  }

  /** An issue with a priority label has the rank of the first one's digit. */
  lemma RankOfLabel(issue: Issue, i: nat, n: nat)
    requires 1 <= n <= 4 && FirstNames(issue, i, n)
    ensures Rank(issue) == n
  {
    hide LabelRank, LabelNames, Rank;
    LabelRankExactly(issue.labels[i], n);
    forall j | 0 <= j < i ensures LabelRank(issue.labels[j]) == None { NamesNothing(issue.labels[j]); }
    RankIsFirstLabel(issue, i);
  }

  /** One without has the rank of the priority its body names, and 5 if that names none. */
  lemma RankOfBody(issue: Issue)
    requires NoLabelNames(issue)
    ensures forall n :: 1 <= n <= 4 ==> (Rank(issue) == n <==> IssueFields.Priority(issue.body) == SyncSays.Nth(n))
    ensures Rank(issue) == 5 <==> IssueFields.Priority(issue.body) == ""
  {
    hide LabelRank, LabelNames, IssueFields.Priority;
    var last := |issue.labels|;
    forall j | 0 <= j < last ensures LabelRank(issue.labels[j]) == None { NamesNothing(issue.labels[j]); }
    RankFromSkips(issue, 0, last);
    PriorityIsKnown(issue.body);
    forall n | 1 <= n <= 4 ensures BodyRank(SyncSays.Nth(n)) == n {}
  }

  /** The priority an issue names, by label or by body; 5 stands for none. */
  ghost predicate Names(issue: Issue, n: nat) {
    || (1 <= n <= 4 && exists i :: FirstNames(issue, i, n))
    || (NoLabelNames(issue) && (if 1 <= n <= 4 then IssueFields.Priority(issue.body) == SyncSays.Nth(n)
                                else n == 5 && IssueFields.Priority(issue.body) == ""))
  }

  /** The rank is the priority's number: 1 to 4 for P1 to P4, and 5 for none. */
  lemma RankExactly(issue: Issue, n: nat)
    ensures Rank(issue) == n <==> Names(issue, n)
  {
    hide LabelNames, Rank, IssueFields.Priority;
    RankIsBounded(issue);
    if NoLabelNames(issue) {
      RankOfBody(issue);
    } else {
      var i, m := FirstNamed(issue);
      RankOfLabel(issue, i, m);
      if Names(issue, n) {
        var j :| FirstNames(issue, j, n);
        RankOfLabel(issue, j, n);
      }
    }
  }

  lemma RankIsBounded(issue: Issue)
    ensures 1 <= Rank(issue) <= 5
  {
    hide LabelNames, LabelRank, IssueFields.Priority;
    if NoLabelNames(issue) {
      RankOfBody(issue);
      PriorityIsKnown(issue.body);
      assert SyncSays.Nth(1) == "p1_urgent" && SyncSays.Nth(2) == "p2_high" && SyncSays.Nth(3) == "p3_medium" && SyncSays.Nth(4) == "p4_low";
    } else {
      var i, m := FirstNamed(issue);
      RankOfLabel(issue, i, m);
    }
  }

  lemma FirstNamed(issue: Issue) returns (i: nat, n: nat)
    requires !NoLabelNames(issue)
    ensures 1 <= n <= 4 && FirstNames(issue, i, n)
  {
    hide LabelNames;
    i := 0;
    while forall m :: 1 <= m <= 4 ==> !LabelNames(issue.labels[i], m)
      invariant i < |issue.labels|
      invariant forall j, m :: 0 <= j < i && 1 <= m <= 4 ==> !LabelNames(issue.labels[j], m)
      decreases |issue.labels| - i
    {
      assert i + 1 < |issue.labels|;
      i := i + 1;
    }
    n :| 1 <= n <= 4 && LabelNames(issue.labels[i], n);
  }

  // ----- the pick

  /**
   * The issue picked names no lower priority than any other ready one: P1 comes before P2, P3 and P4, and issues that name
   * none come last. Among issues of the same priority a strategy's higher score decides, and then the order of fetching.
   */
  lemma PickedByPriority(strategy: Strategy, w: World, issues: seq<Issue>, p: nat, q: nat, m: nat, n: nat)
    requires p < |issues| && IsBest(strategy, w, issues, p) && q < |issues| && Ready(w, issues[q]) && Names(issues[p], m) && Names(issues[q], n)
    ensures m <= n
    ensures m == n && strategy.Some? ==> strategy.value(issues[p]) >= strategy.value(issues[q])
    ensures m == n && p > q ==> strategy.Some? && strategy.value(issues[p]) > strategy.value(issues[q])
  {
    hide Names, Rank, Ready, IsBest;
    RankExactly(issues[p], m);
    RankExactly(issues[q], n);
    BestMeans(strategy, w, issues, p, q);
  }

  // ----- dependencies

  /** The task of this id is known, and not over. */
  ghost predicate KnownOpen(w: World, issue: Issue, id: string) {
    && !(id in if w.closed.Some? then w.closed.value else w.refetch(issue))
    && w.database.Some?
    && exists status :: w.database.value(id) == Status(status) && status != "done" && status != "cancelled" && status != "archived"
  }

  /** An issue waits exactly for a task that its dependency line names and that is known to be open. */
  lemma WaitsExactly(w: World, issue: Issue)
    ensures !Ready(w, issue) <==>
            var line := IssueFields.First(IssueFields.DepsAt, issue.body);
            && line.Some? && !Contains(Slugs.ToLower(line.value), "none")
            && exists id :: IssueFields.Stands(line.value, id, false) && KnownOpen(w, issue, id)
  {
    IssueFields.DepsAreIds(issue.body);
    hide IssueFields.Deps, IssueFields.First, Contains, IssueFields.Stands, Slugs.ToLower;
    forall id ensures DepSatisfied(w, issue, id) <==> !KnownOpen(w, issue, id) {}
  }
}
