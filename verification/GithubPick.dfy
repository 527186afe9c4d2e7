/** lw github pick: the next issue to work on. */
module GithubPick {
  import opened Text
  import IssueFields
  import Slugs

  /** An open issue with the "ready" label. */
  datatype Issue = Issue(number: nat, labels: seq<string>, body: string)

  /** The strategy's score of an issue, if a strategy could be loaded. */
  type Strategy = Option<Issue -> int>

  // ----- priority

  function LabelRank(name: string): Option<nat> {
    var lower := Slugs.ToLower(name);
    if "p1" <= lower then Some(1) else if "p2" <= lower then Some(2)
    else if "p3" <= lower then Some(3) else if "p4" <= lower then Some(4) else None
  }

  function BodyRank(priority: string): nat {
    if priority == "p1_urgent" then 1 else if priority == "p2_high" then 2
    else if priority == "p3_medium" then 3 else if priority == "p4_low" then 4 else 5
  }

  function Rank(issue: Issue): nat {
    RankFrom(issue, 0)
  }

  function RankFrom(issue: Issue, i: nat): nat
    decreases |issue.labels| - i
  {
    if i >= |issue.labels| then BodyRank(IssueFields.Priority(issue.body))
    else if LabelRank(issue.labels[i]).Some? then LabelRank(issue.labels[i]).value
    else RankFrom(issue, i + 1)
  }

  /** issuePriorityRank */
  method IssuePriorityRank(issue: Issue) returns (r: nat)
    ensures r == Rank(issue)
  {
    hide LabelRank;
    for i := 0 to |issue.labels|
      invariant Rank(issue) == RankFrom(issue, i)
    {
      var rank := LabelRank(issue.labels[i]);
      if rank.Some? {
        return rank.value;
      }
    }
    return BodyRank(IssueFields.Priority(issue.body));
  }

  /** The first label that names a priority decides; without one the body does, and 5 means neither says. */
  lemma {:induction false} RankIsFirstLabel(issue: Issue, i: nat)
    requires i <= |issue.labels|
    requires forall j :: 0 <= j < i ==> LabelRank(issue.labels[j]) == None
    requires i < |issue.labels| ==> LabelRank(issue.labels[i]).Some?
    ensures 1 <= Rank(issue) <= 5
    ensures i < |issue.labels| ==> LabelRank(issue.labels[i]) == Some(Rank(issue)) && Rank(issue) <= 4
    ensures i == |issue.labels| ==> (Rank(issue) == 5 <==> IssueFields.Priority(issue.body) == "")
  {
    hide IssueFields.Priority;
    assert RankFrom(issue, 0) == RankFrom(issue, i) by { RankFromSkips(issue, 0, i); }
    assert IssueFields.Priority(issue.body) in {"", "p1_urgent", "p2_high", "p3_medium", "p4_low"} by { PriorityIsKnown(issue.body); }
  }

  lemma PriorityIsKnown(body: string)
    ensures IssueFields.Priority(body) in {"", "p1_urgent", "p2_high", "p3_medium", "p4_low"}
  {
    hide IssueFields.First, Trim;
  }

  lemma {:induction false} RankFromSkips(issue: Issue, i: nat, j: nat)
    requires i <= j <= |issue.labels| && forall l :: i <= l < j ==> LabelRank(issue.labels[l]) == None
    ensures RankFrom(issue, i) == RankFrom(issue, j)
    decreases j - i
  {
    hide LabelRank, IssueFields.Priority;
    if i < j {
      RankFromSkips(issue, i + 1, j);
    }
  }

  // ----- the order

  /** The comparison of sortByPriority: rank ascending, then score descending. */
  predicate Less(strategy: Strategy, a: Issue, b: Issue) {
    if Rank(a) != Rank(b) then Rank(a) < Rank(b)
    else strategy.Some? && strategy.value(a) > strategy.value(b)
  }

  predicate Tied(strategy: Strategy, a: Issue, b: Issue) {
    !Less(strategy, a, b) && !Less(strategy, b, a)
  }

  /** What sort.SliceStable asks of it: a strict weak order. */
  lemma LessIsStrictWeakOrder(strategy: Strategy, a: Issue, b: Issue, c: Issue)
    ensures !Less(strategy, a, a)
    ensures Less(strategy, a, b) && Less(strategy, b, c) ==> Less(strategy, a, c)
    ensures Tied(strategy, a, b) && Tied(strategy, b, c) ==> Tied(strategy, a, c)
  {
    hide Rank;
  }

  /** Issue p comes before issue q: it is better, or as good and fetched earlier. */
  predicate Before(strategy: Strategy, issues: seq<Issue>, p: nat, q: nat)
    requires p < |issues| && q < |issues|
  {
    Less(strategy, issues[p], issues[q]) || (Tied(strategy, issues[p], issues[q]) && p < q)
  }

  /** `order` lists the first n fetched positions in stable sorted order. */
  ghost predicate StableOrder(strategy: Strategy, issues: seq<Issue>, n: nat, order: seq<nat>) {
    && |order| == n <= |issues|
    && (forall i :: 0 <= i < n ==> order[i] < n)
    && (forall p: nat :: p < n ==> p in order)
    && (forall i, j :: 0 <= i < j < n ==> Before(strategy, issues, order[i], order[j]))
  }

  lemma BeforeIsTotal(strategy: Strategy, issues: seq<Issue>, p: nat, q: nat, r: nat)
    requires p < |issues| && q < |issues| && r < |issues|
    ensures !(Before(strategy, issues, p, q) && Before(strategy, issues, q, p))
    ensures p != q ==> Before(strategy, issues, p, q) || Before(strategy, issues, q, p)
    ensures Before(strategy, issues, p, q) && Before(strategy, issues, q, r) ==> Before(strategy, issues, p, r)
  {
    hide Rank;
  }

  /** There is only one stable order, so any stable sort gives the same list. */
  lemma {:induction false} StableOrderIsUnique(strategy: Strategy, issues: seq<Issue>, order: seq<nat>, order': seq<nat>, n: nat)
    requires StableOrder(strategy, issues, |issues|, order) && StableOrder(strategy, issues, |issues|, order')
    requires n <= |issues|
    ensures order[..n] == order'[..n]
  {
    hide Before;
    if n > 0 {
      StableOrderIsUnique(strategy, issues, order, order', n - 1);
      var p := order[n - 1];
      assert p in order';
      var j :| 0 <= j < |order'| && order'[j] == p;
      forall i | 0 <= i < n - 1 ensures order'[i] != p {
        assert order'[i] == order[..n - 1][i] == order[i];
        BeforeIsTotal(strategy, issues, order[i], p, p);
      }
      if j > n - 1 {
        var q := order'[n - 1];
        assert Before(strategy, issues, q, p) && q in order;
        var k :| 0 <= k < |order| && order[k] == q;
        BeforeIsTotal(strategy, issues, q, p, p);
        if k < n - 1 {
          assert order'[k] == order[..n - 1][k] == q;
          assert Before(strategy, issues, q, q);
          BeforeIsTotal(strategy, issues, q, q, q);
        }
        assert false;
      }
      assert order[..n] == order[..n - 1] + [p] && order'[..n] == order'[..n - 1] + [p];
    }
  }

  /** sortByPriority: a stable sort in place. `order` says which fetched issue ended up where. */
  method SortByPriority(issues: array<Issue>, strategy: Strategy) returns (ghost order: seq<nat>)
    modifies issues
    ensures StableOrder(strategy, old(issues[..]), issues.Length, order)
    ensures Listed(old(issues[..]), order, issues[..])
  {
    hide Before;
    ghost var fetched := issues[..];
    order := [];
    for i := 0 to issues.Length
      invariant Arranged(strategy, fetched, i, order, issues[..])
    {
      order := InsertLast(issues, i, strategy, fetched, order);
    }
  }

  /** The first n issues stand in the order, the others where they were. */
  ghost predicate Arranged(strategy: Strategy, fetched: seq<Issue>, n: nat, order: seq<nat>, now: seq<Issue>) {
    && StableOrder(strategy, fetched, n, order) && |now| == |fetched|
    && (forall j :: 0 <= j < n ==> now[j] == fetched[order[j]])
    && (forall j :: n <= j < |now| ==> now[j] == fetched[j])
  }

  /** The fetched issues in the order. */
  ghost predicate Listed(fetched: seq<Issue>, order: seq<nat>, now: seq<Issue>) {
    && |order| == |fetched| == |now|
    && forall i :: 0 <= i < |now| ==> order[i] < |fetched| && now[i] == fetched[order[i]]
  }

  /** One round of the sort: the issue at i moves down past those it is less than. */
  method InsertLast(issues: array<Issue>, i: nat, strategy: Strategy, ghost fetched: seq<Issue>, ghost sorted: seq<nat>)
    returns (ghost order: seq<nat>)
    requires i < issues.Length == |fetched| && Arranged(strategy, fetched, i, sorted, issues[..])
    modifies issues
    ensures Arranged(strategy, fetched, i + 1, order, issues[..])
  {
    hide Less, Arranged;
    ghost var was := issues[..];
    var x := issues[i];
    var at := i;
    while at > 0 && Less(strategy, x, issues[at - 1])
      invariant 0 <= at <= i
      invariant forall j :: 0 <= j < at ==> issues[j] == was[j]
      invariant forall j :: at < j <= i ==> issues[j] == was[j - 1]
      invariant forall j :: at <= j < i ==> Less(strategy, x, was[j])
      invariant forall j :: i < j < issues.Length ==> issues[j] == was[j]
    {
      issues[at] := issues[at - 1];
      at := at - 1;
    }
    issues[at] := x;
    order := Rearranged(strategy, fetched, i, sorted, was, at, issues[..]);
  }

  lemma Rearranged(strategy: Strategy, fetched: seq<Issue>, i: nat, sorted: seq<nat>, was: seq<Issue>, at: nat, now: seq<Issue>)
    returns (order: seq<nat>)
    requires i < |fetched| == |now| && Arranged(strategy, fetched, i, sorted, was) && at <= i
    requires now[at] == was[i]
    requires forall j :: 0 <= j < at ==> now[j] == was[j]
    requires forall j :: at < j <= i ==> now[j] == was[j - 1]
    requires forall j :: i < j < |now| ==> now[j] == was[j]
    requires forall j :: at <= j < i ==> Less(strategy, was[i], was[j])
    requires at > 0 ==> !Less(strategy, was[i], was[at - 1])
    ensures Arranged(strategy, fetched, i + 1, order, now)
  {
    hide Less, Before;
    order := Inserted(strategy, fetched, sorted, at);
    hide StableOrder;
    forall j | 0 <= j < i + 1 ensures order[j] < |fetched| && now[j] == fetched[order[j]] {
      assert order[j] == if j < at then sorted[j] else if j == at then i else sorted[j - 1];
    }
    assert StableOrder(strategy, fetched, i + 1, order);
  }

  lemma Inserted(strategy: Strategy, fetched: seq<Issue>, sorted: seq<nat>, at: nat) returns (order: seq<nat>)
    requires |sorted| < |fetched| && at <= |sorted| && StableOrder(strategy, fetched, |sorted|, sorted)
    requires forall j :: at <= j < |sorted| ==> Less(strategy, fetched[|sorted|], fetched[sorted[j]])
    requires at > 0 ==> !Less(strategy, fetched[|sorted|], fetched[sorted[at - 1]])
    ensures order == sorted[..at] + [|sorted|] + sorted[at..]
    ensures StableOrder(strategy, fetched, |sorted| + 1, order)
  {
    hide Less;
    var n := |sorted|;
    order := sorted[..at] + [n] + sorted[at..];
    forall j | 0 <= j < at ensures Before(strategy, fetched, sorted[j], n) {
      LastIsBehind(strategy, fetched, n, sorted[at - 1]);
      if j < at - 1 {
        BeforeIsTotal(strategy, fetched, sorted[j], sorted[at - 1], n);
      }
    }
    hide Before;
    forall p: nat | p < n + 1 ensures p in order {
      assert p < n ==> p in sorted;
      assert sorted == sorted[..at] + sorted[at..];
      assert order[at] == n;
    }
    forall j, k | 0 <= j < k < n + 1 ensures Before(strategy, fetched, order[j], order[k]) {
      assert order[j] == if j < at then sorted[j] else if j == at then n else sorted[j - 1];
      assert order[k] == if k < at then sorted[k] else if k == at then n else sorted[k - 1];
      if j == at {
        LessIsBefore(strategy, fetched, n, sorted[k - 1]);
      }
    }
  }

  lemma LastIsBehind(strategy: Strategy, issues: seq<Issue>, n: nat, p: nat)
    requires p < n < |issues| && !Less(strategy, issues[n], issues[p])
    ensures Before(strategy, issues, p, n)
  {
    hide Less;
  }

  lemma LessIsBefore(strategy: Strategy, issues: seq<Issue>, p: nat, q: nat)
    requires p < |issues| && q < |issues| && Less(strategy, issues[p], issues[q])
    ensures Before(strategy, issues, p, q)
  {
    hide Less;
  }

  // ----- dependencies

  datatype Lookup = Failed | Status(status: string)

  /** What is known of closed issues and of the task database. `refetch` answers when the first fetch failed. */
  datatype World = World(closed: Option<set<string>>, refetch: Issue -> set<string>, database: Option<string -> Lookup>)

  /** The dependency is done, or nothing says that it is not. */
  predicate DepSatisfied(w: World, issue: Issue, dep: string) {
    || dep in (if w.closed.Some? then w.closed.value else w.refetch(issue))
    || w.database.None?
    || w.database.value(dep).Failed?
    || w.database.value(dep).status in {"done", "cancelled", "archived"}
  }

  predicate Ready(w: World, issue: Issue) {
    forall d :: d in IssueFields.Deps(issue.body) ==> DepSatisfied(w, issue, d)
  }

  /** depsOK */
  method DepsOk(w: World, issue: Issue) returns (ok: bool)
    ensures ok <==> Ready(w, issue)
  {
    hide IssueFields.Deps;
    var deps := IssueFields.Deps(issue.body);
    if |deps| == 0 {
      return true;
    }
    var closed := if w.closed.None? then w.refetch(issue) else w.closed.value;
    for i := 0 to |deps|
      invariant forall j :: 0 <= j < i ==> DepSatisfied(w, issue, deps[j])
    {
      var dep := deps[i];
      if dep in closed {
        continue;
      }
      if w.database.Some? {
        var task := w.database.value(dep);
        if task.Failed? {
          continue;
        }
        if task.status in {"done", "cancelled", "archived"} {
          continue;
        } else {
          assert !DepSatisfied(w, issue, dep) && dep in deps;
          return false;
        }
      }
    }
    return true;
  }

  // ----- the pick

  /** The issue at p is ready, and every other ready issue comes after it. */
  ghost predicate IsBest(strategy: Strategy, w: World, issues: seq<Issue>, p: nat) {
    && p < |issues| && Ready(w, issues[p])
    && forall q: nat :: q < |issues| && q != p && Ready(w, issues[q]) ==> Before(strategy, issues, p, q)
  }

  /** pickNextReady, after the issues were fetched. */
  method PickNextReady(issues: array<Issue>, strategy: Strategy, w: World) returns (picked: Option<Issue>, ghost at: nat)
    modifies issues
    ensures picked.Some? ==> IsBest(strategy, w, old(issues[..]), at) && picked.value == old(issues[..])[at]
    ensures picked.None? <==> forall p :: 0 <= p < issues.Length ==> !Ready(w, old(issues[..])[p])
  {
    hide Before, Less, Ready, StableOrder, IsBest, Listed;
    ghost var fetched := issues[..];
    at := 0;
    if issues.Length == 0 {
      return None, 0;
    }
    ghost var order := SortByPriority(issues, strategy);
    ghost var now := issues[..];
    for i := 0 to issues.Length
      invariant issues[..] == now
      invariant forall j :: 0 <= j < i ==> !Ready(w, now[j])
    {
      var ok := DepsOk(w, issues[i]);
      if ok {
        at := FirstReadyIsBest(strategy, w, fetched, order, now, i);
        return Some(issues[i]), at;
      }
    }
    OrderIsComplete(strategy, w, fetched, order, now);
    return None, 0;
  }

  lemma OrderIsComplete(strategy: Strategy, w: World, issues: seq<Issue>, order: seq<nat>, now: seq<Issue>)
    requires StableOrder(strategy, issues, |issues|, order) && Listed(issues, order, now)
    requires forall j :: 0 <= j < |now| ==> !Ready(w, now[j])
    ensures forall p :: 0 <= p < |issues| ==> !Ready(w, issues[p])
  {
    hide Before, Ready;
    forall p | 0 <= p < |issues| ensures !Ready(w, issues[p]) {
      assert p in order;
    }
  }

  lemma FirstReadyIsBest(strategy: Strategy, w: World, issues: seq<Issue>, order: seq<nat>, now: seq<Issue>, i: nat)
    returns (at: nat)
    requires StableOrder(strategy, issues, |issues|, order) && Listed(issues, order, now) && i < |now|
    requires Ready(w, now[i]) && forall j :: 0 <= j < i ==> !Ready(w, now[j])
    ensures at < |issues| && IsBest(strategy, w, issues, at) && issues[at] == now[i] && Ready(w, issues[at])
  {
    hide Before, Ready;
    at := order[i];
    forall q: nat | q < |issues| && q != order[i] && Ready(w, issues[q]) ensures Before(strategy, issues, order[i], q) {
      assert q in order;
      var k :| 0 <= k < |order| && order[k] == q;
      assert k > i;
    }
  }

  /** What is picked: no ready issue ranks better, or as well with a higher score, or ties and was fetched earlier. */
  lemma BestMeans(strategy: Strategy, w: World, issues: seq<Issue>, p: nat, q: nat)
    requires IsBest(strategy, w, issues, p) && q < |issues| && Ready(w, issues[q])
    ensures Rank(issues[p]) <= Rank(issues[q])
    ensures Rank(issues[p]) == Rank(issues[q]) && strategy.Some? ==> strategy.value(issues[p]) >= strategy.value(issues[q])
    ensures Rank(issues[p]) == Rank(issues[q]) && (strategy.Some? ==> strategy.value(issues[p]) == strategy.value(issues[q])) ==> p <= q
  {
    hide Rank, Ready;
    if p != q {
      assert Before(strategy, issues, p, q);
    }
  }

  /** At most one issue is best. */
  lemma BestIsUnique(strategy: Strategy, w: World, issues: seq<Issue>, p: nat, q: nat)
    requires IsBest(strategy, w, issues, p) && IsBest(strategy, w, issues, q)
    ensures p == q
  {
    hide Before, Ready;
    BeforeIsTotal(strategy, issues, p, q, q);
  }
}
