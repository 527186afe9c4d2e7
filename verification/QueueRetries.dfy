/** What a retry answers means, and which edits of an issue make its request another one. */
module QueueRetries {
  import opened Text
  import opened IssueQueue

  // ----- liveness

  /** A task is live while it is in development or in review and is not parked for a year or more. */
  lemma LiveExactly(task: Task, nowMs: int)
    ensures IsLive(task, nowMs) <==>
            && (task.stage == InDevelopment || task.stage == InReview)
            && (task.nextEligibleMs <= 0 || task.nextEligibleMs - nowMs < 31_536_000_000)
  {
  }

  // ----- the answer of a retry

  /** The n-th generation of the issue exists, but with another request, or dead. */
  predicate PassedBy(tasks: map<string, Task>, repo: string, number: nat, n: nat, request: Request, nowMs: int) {
    var key := GenerationKey(repo, number, n);
    key in tasks && (tasks[key].request != request || !IsLive(tasks[key], nowMs))
  }

  /** Some call to the queue was lost. */
  ghost predicate SomethingLost(g: nat, net: Network) {
    exists n :: g <= n <= 5 && (net.create(n) != Answered || !net.get(n))
  }

  /** What an answer means for the generations from g on. */
  ghost predicate Means(g: nat, tasks: map<string, Task>, repo: string, number: nat, request: Request, nowMs: int, net: Network,
                        tasks': map<string, Task>, reply: RetryReply) {
    && (forall k :: k in tasks ==> k in tasks' && tasks'[k] == tasks[k])
    && match reply
       case Retried(id, n) =>
         && g <= n <= 5 && id == GenerationKey(repo, number, n)
         && id in tasks' && tasks'[id].request == request && IsLive(tasks'[id], nowMs)
         && forall m :: g <= m < n ==> PassedBy(tasks', repo, number, m, request, nowMs)
       case NoLiveGeneration => forall m :: g <= m <= 5 ==> PassedBy(tasks', repo, number, m, request, nowMs)
       case CallFailed => SomethingLost(g, net)
  }

  lemma MeansNext(g: nat, tasks: map<string, Task>, repo: string, number: nat, request: Request, nowMs: int, net: Network,
                  between: map<string, Task>, tasks': map<string, Task>, reply: RetryReply)
    requires g <= 5 && (forall k :: k in tasks ==> k in between && between[k] == tasks[k])
    requires PassedBy(between, repo, number, g, request, nowMs)
    requires Means(g + 1, between, repo, number, request, nowMs, net, tasks', reply)
    ensures Means(g, tasks, repo, number, request, nowMs, net, tasks', reply)
  {
    hide GenerationKey, IsLive, SomethingLost;
    LostLater(g, net);
    assert PassedBy(tasks', repo, number, g, request, nowMs);
    hide PassedBy;
  }

  /**
   * A retry answers with the first generation that is not passed by: live, with this request. It answers that there is none
   * only if all five are passed by, and fails only if a call was lost. What was in the queue stays as it was.
   */
  lemma {:induction false} RetryMeans(g: nat, tasks: map<string, Task>, repo: string, number: nat, request: Request, nowMs: int, net: Network)
    requires g >= 1
    ensures var (tasks', reply) := RetryFrom(g, tasks, repo, number, request, nowMs, net);
            Means(g, tasks, repo, number, request, nowMs, net, tasks', reply)
    decreases 6 - g
  {
    hide GenerationKey, IsLive, SomethingLost;
    if g <= 5 {
      var key := GenerationKey(repo, number, g);
      var between := CreateIn(tasks, key, request, net.create(g));
      var (tasks', reply) := RetryFrom(g, tasks, repo, number, request, nowMs, net);
      LostLater(g, net);
      if CreateAnswer(tasks, key, request, net.create(g)) != Failed && net.get(g) && PassedBy(between, repo, number, g, request, nowMs) {
        RetryMeans(g + 1, between, repo, number, request, nowMs, net);
        hide Means;
        MeansNext(g, tasks, repo, number, request, nowMs, net, between, tasks', reply);
      } else if CreateAnswer(tasks, key, request, net.create(g)) == Conflict {
        RetryMeans(g + 1, between, repo, number, request, nowMs, net);
        hide Means;
        MeansNext(g, tasks, repo, number, request, nowMs, net, between, tasks', reply);
      }
    }
  }

  lemma LostLater(g: nat, net: Network)
    ensures SomethingLost(g + 1, net) ==> SomethingLost(g, net)
    ensures g <= 5 && (net.create(g) != Answered || !net.get(g)) ==> SomethingLost(g, net)
  {
    if SomethingLost(g + 1, net) {
      var n :| g + 1 <= n <= 5 && (net.create(n) != Answered || !net.get(n));
      assert g <= n <= 5;
    }
  }

  // ----- requests

  lemma {:induction false} TrimLeftConcat(a: string, b: string)
    ensures TrimLeft(a + b) == if TrimLeft(a) == "" then TrimLeft(b) else TrimLeft(a) + b
  {
    hide IsSpace;
    if a == "" {
      assert a + b == b;
    } else {
      assert (a + b)[1..] == a[1..] + b && (a + b)[0] == a[0];
      if IsSpace(a[0]) {
        TrimLeftConcat(a[1..], b);
      }
    }
  }

  lemma BreaksAreBlank(gap: string)
    requires gap == "\n\n"
    ensures TrimLeft(gap) == ""
  {
    assert IsSpace('\n');
    assert TrimLeft(gap[1..][1..]) == "";
    assert TrimLeft(gap[1..]) == "";
  }

  lemma EndsUntrimmed(text: string, tail: string)
    requires tail != "" && !IsSpace(tail[|tail| - 1])
    ensures TrimRight(text + tail) == text + tail
  {
    assert (text + tail)[|text + tail| - 1] == tail[|tail| - 1];
  }

  /** The description of a task: the issue's text without blanks before it, and its address. */
  lemma DescriptionIs(body: string, gap: string, url: string)
    requires url != "" && Trimmed(url) && gap == "\n\n"
    ensures Trim(body + gap + url) == if TrimLeft(body) == "" then url else TrimLeft(body) + (gap + url)
  {
    BreaksAreBlank(gap);
    assert TrimLeft(url) == url && TrimRight(url) == url && !IsSpace(url[|url| - 1]);
    hide IsSpace, TrimLeft, TrimRight;
    assert body + gap + url == body + (gap + url);
    TrimLeftConcat(body, gap + url);
    TrimLeftConcat(gap, url);
    EndsUntrimmed(TrimLeft(body), gap + url);
  }

  lemma SameBehind(x: string, y: string, gap: string, url: string)
    requires |gap| > 0
    ensures (if x == "" then url else x + (gap + url)) == (if y == "" then url else y + (gap + url)) <==> x == y
  {
    var tail := gap + url;
    if x != "" && y != "" && x + tail == y + tail {
      assert |x| == |y| && x == (x + tail)[..|x|] == (y + tail)[..|y|] == y;
    }
    assert |tail| > |url|;
  }

  lemma SameText(a: string, b: string, gap: string, url: string)
    requires url != "" && Trimmed(url) && gap == "\n\n"
    ensures Trim(a + gap + url) == Trim(b + gap + url) <==> TrimLeft(a) == TrimLeft(b)
  {
    DescriptionIs(a, gap, url);
    DescriptionIs(b, gap, url);
    hide *;
    SameBehind(TrimLeft(a), TrimLeft(b), gap, url);
  }

  lemma SameTitle(head: string, a: string, b: string)
    ensures head + a == head + b <==> a == b
  {
    assert a == (head + a)[|head|..] && b == (head + b)[|head|..];
  }

  /**
   * Two states of an issue make the same request exactly if title, labels and text agree, blanks before the text aside. So
   * any other edit makes the queue answer with a conflict, and a retry with another generation.
   */
  lemma RequestsAgree(repo: string, pipeline: string, number: nat, a: Issue, b: Issue)
    requires a.url == b.url != "" && Trimmed(a.url)
    ensures RequestOf(repo, pipeline, number, a) == RequestOf(repo, pipeline, number, b) <==>
            a.title == b.title && a.labels == b.labels && TrimLeft(a.body) == TrimLeft(b.body)
  {
    SameText(a.body, b.body, "\n\n", a.url);
    SameTitle(repo + "#" + Decimal(number) + ": ", a.title, b.title);
    hide Trim, TrimLeft, Decimal, BindingKey;
  }

  /** What a request says of where it comes from and where it goes. */
  lemma RequestNames(repo: string, pipeline: string, number: nat, issue: Issue)
    ensures var request := RequestOf(repo, pipeline, number, issue);
      && request.repo == repo && request.pipeline == pipeline && request.number == number && request.url == issue.url
      && request.labels == issue.labels && request.bindingKey == "github:issue:" + repo + "#" + Decimal(number)
  {
    hide Trim, Decimal;
  }

  /** A task starts in development, eligible at once, with no verdict against it, so it is live. */
  lemma NewTaskIsLive(tasks: map<string, Task>, key: string, request: Request, nowMs: int)
    requires key !in tasks
    ensures var tasks' := CreateIn(tasks, key, request, Answered);
      && tasks'.Keys == tasks.Keys + {key} && tasks'[key].request == request && tasks'[key].stage == InDevelopment
      && IsLive(tasks'[key], nowMs) && tasks'[key].version == 1 && tasks'[key].failedRounds == 0
      && CreateAnswer(tasks, key, request, Answered) == Created(key)
  {
  }
}
