/** What holds along every run of the issue loop. */
module IssueLoopRuns {
  import opened PullRequests
  import opened IssueQueue
  import opened IssueLoop

  // ----- every reachable state

  lemma {:induction false} EveryStateOk(c: Config, states: seq<State>, events: seq<Event>, i: nat)
    requires Run(c, states, events) && i < |states|
    ensures Inv(c, states[i])
  {
    hide Enabled, After, NoGaps, EarlierDead;
    if i == 0 {
      EmptyIsOk(c, states[0]);
    } else {
      EveryStateOk(c, states, events, i - 1);
      StepKeepsInv(c, states[i - 1], events[i - 1]);
    }
  }

  lemma EmptyIsOk(c: Config, s: State)
    requires s.tasks == map[] && s.nowMs <= FOREVER_MS - EXHAUSTED_HORIZON_MS
    ensures Inv(c, s)
  {
    hide GenerationKey;
  }

  /** Tasks, their requests and their deaths last from any state of a run to any later one. */
  lemma {:induction false} RunKeeps(c: Config, states: seq<State>, events: seq<Event>, i: nat, j: nat)
    requires Run(c, states, events) && i <= j < |states|
    ensures Keeps(states[i], states[j])
  {
    hide Enabled, After, Inv;
    if i < j {
      RunKeeps(c, states, events, i, j - 1);
      EveryStateOk(c, states, events, j - 1);
      StepKeepsInv(c, states[j - 1], events[j - 1]);
    }
  }

  // ----- generations

  /** The generations of an issue are exactly 1..k for some k of at most five. */
  lemma GenerationsArePrefix(c: Config, states: seq<State>, events: seq<Event>, i: nat, number: nat) returns (k: nat)
    requires Run(c, states, events) && i < |states|
    ensures k <= MAX_GENERATIONS && forall g: nat :: g >= 1 ==> (Key(c, number, g) in states[i].tasks <==> g <= k)
  {
    hide GenerationKey, Enabled, After, IsLive, EarlierDead, RoundsOk, TimesOk;
    EveryStateOk(c, states, events, i);
    var tasks := states[i].tasks;
    assert NoGaps(c, tasks, number);
    k := 0;
    while k < MAX_GENERATIONS && Key(c, number, k + 1) in tasks
      invariant k <= MAX_GENERATIONS && forall g: nat :: 1 <= g <= k ==> Key(c, number, g) in tasks
    {
      k := k + 1;
    }
    if k < MAX_GENERATIONS {
      NoneAbove(c, tasks, number, k + 1);
    }
  }

  /** Two live generations of one issue were never created from the same request. */
  lemma OneLivePerRequest(c: Config, states: seq<State>, events: seq<Event>, i: nat, number: nat, g: nat, h: nat)
    requires Run(c, states, events) && i < |states| && g >= 1 && h >= 1 && g != h
    requires Key(c, number, g) in states[i].tasks && Key(c, number, h) in states[i].tasks
    requires IsLive(states[i].tasks[Key(c, number, g)], states[i].nowMs) && IsLive(states[i].tasks[Key(c, number, h)], states[i].nowMs)
    ensures states[i].tasks[Key(c, number, g)].request != states[i].tasks[Key(c, number, h)].request
  {
    hide GenerationKey, Enabled, After, IsLive, NoGaps, RoundsOk, TimesOk;
    EveryStateOk(c, states, events, i);
    assert EarlierDead(c, states[i], number);
  }

  // ----- retrying again

  /** What a successful retry found: the generation it names, alive, with this request, and the earlier ones no use. */
  lemma {:induction false} RetriedMeans(c: Config, g: nat, tasks: map<string, Task>, number: nat, request: Request, nowMs: int, net: Network)
    requires g >= 1 && PassedOver(c, tasks, nowMs, number, g, request)
    ensures var (tasks', reply) := RetryFrom(g, tasks, c.repo, number, request, nowMs, net);
      reply.Retried? ==>
        && 1 <= reply.generation <= MAX_GENERATIONS && reply.id == Key(c, number, reply.generation)
        && PassedOver(c, tasks, nowMs, number, reply.generation, request)
        && reply.id in tasks' && tasks'[reply.id].request == request && IsLive(tasks'[reply.id], nowMs)
    decreases MAX_GENERATIONS + 1 - g
  {
    hide GenerationKey;
    if g <= MAX_GENERATIONS && Key(c, number, g) in tasks
       && (tasks[Key(c, number, g)].request != request || !IsLive(tasks[Key(c, number, g)], nowMs)) {
      RetriedMeans(c, g + 1, tasks, number, request, nowMs, net);
    }
  }

  /** With every call answered a retry takes the first generation that is alive with this request. */
  lemma {:induction false} RetryFinds(c: Config, from: nat, tasks: map<string, Task>, number: nat, request: Request, nowMs: int, g: nat)
    requires 1 <= from <= g <= MAX_GENERATIONS && PassedOver(c, tasks, nowMs, number, g, request)
    requires Key(c, number, g) in tasks ==>
               tasks[Key(c, number, g)].request == request && IsLive(tasks[Key(c, number, g)], nowMs)
    ensures RetryFrom(from, tasks, c.repo, number, request, nowMs, CALM) ==
            (CreateIn(tasks, Key(c, number, g), request, Answered), Retried(Key(c, number, g), g))
    decreases g - from
  {
    hide GenerationKey;
    if from < g {
      assert Key(c, number, from) in tasks;
      RetryFinds(c, from + 1, tasks, number, request, nowMs, g);
    }
  }

  /**
   * Asking again: once a retry has returned a task, every later retry of the issue with the same
   * request returns that same task and creates nothing, for as long as the task lives, whatever
   * else has happened in between.
   */
  lemma RetryRepeats(c: Config, states: seq<State>, events: seq<Event>, i: nat, j: nat, number: nat, net: Network, removed: bool)
    requires Run(c, states, events) && i < j < |states| && events[i] == RetryTick(number, net, removed)
    requires number in states[i].issues && number in states[j].issues
    requires RequestNow(c, states[j], number) == RequestNow(c, states[i], number)
    requires var reply := Retry(states[i].tasks, c.repo, number, RequestNow(c, states[i], number), states[i].nowMs, net).1;
      reply.Retried? && reply.id in states[j].tasks && IsLive(states[j].tasks[reply.id], states[j].nowMs)
    ensures Retry(states[j].tasks, c.repo, number, RequestNow(c, states[j], number), states[j].nowMs, CALM) ==
            (states[j].tasks, Retry(states[i].tasks, c.repo, number, RequestNow(c, states[i], number), states[i].nowMs, net).1)
  {
    hide GenerationKey, IsLive, RequestOf, RetryFrom, Enabled;
    var request := RequestNow(c, states[i], number);
    var reply := Retry(states[i].tasks, c.repo, number, request, states[i].nowMs, net).1;
    RetriedMeans(c, 1, states[i].tasks, number, request, states[i].nowMs, net);
    RunKeeps(c, states, events, i, j);
    RunKeeps(c, states, events, i + 1, j);
    assert states[i + 1].tasks == Retry(states[i].tasks, c.repo, number, request, states[i].nowMs, net).0;
    assert PassedOver(c, states[j].tasks, states[j].nowMs, number, reply.generation, request);
    RetryFinds(c, 1, states[j].tasks, number, request, states[j].nowMs, reply.generation);
  }

  // ----- forks

  ghost predicate SomeLive(c: Config, tasks: map<string, Task>, nowMs: int, number: nat) {
    exists g: nat :: 1 <= g <= MAX_GENERATIONS && Key(c, number, g) in tasks && IsLive(tasks[Key(c, number, g)], nowMs)
  }

  ghost predicate LiveWithRequest(c: Config, tasks: map<string, Task>, nowMs: int, number: nat, request: Request) {
    exists g: nat :: 1 <= g <= MAX_GENERATIONS && Key(c, number, g) in tasks
      && tasks[Key(c, number, g)].request == request && IsLive(tasks[Key(c, number, g)], nowMs)
  }

  /**
   * When a retry puts a second live task beside a live one: exactly when some generation is alive,
   * none of the live ones was created from the issue's request as it reads now (adding the retry
   * label to an issue already changes that), and a generation is left.
   */
  lemma RetryForksExactly(c: Config, states: seq<State>, events: seq<Event>, i: nat, number: nat)
    requires Run(c, states, events) && i < |states| && number in states[i].issues
    ensures var s := states[i];
      var request := RequestNow(c, s, number);
      Retry(s.tasks, c.repo, number, request, s.nowMs, CALM).0 != s.tasks && SomeLive(c, s.tasks, s.nowMs, number) <==>
      SomeLive(c, s.tasks, s.nowMs, number) && !LiveWithRequest(c, s.tasks, s.nowMs, number, request)
      && Key(c, number, MAX_GENERATIONS) !in s.tasks
  {
    hide GenerationKey, IsLive, RequestOf, Enabled, After, RetryFrom;
    var s := states[i];
    var request := RequestNow(c, s, number);
    var k := GenerationsArePrefix(c, states, events, i, number);
    var g := FirstUsable(c, s.tasks, s.nowMs, number, request, k);
    if g <= MAX_GENERATIONS {
      RetryFinds(c, 1, s.tasks, number, request, s.nowMs, g);
      assert g <= k ==> LiveWithRequest(c, s.tasks, s.nowMs, number, request);
    } else {
      RetryEffect(c, 1, s.tasks, number, request, s.nowMs, CALM);
    }
  }

  /** The first generation that is alive with this request, or else the first not created. */
  lemma FirstUsable(c: Config, tasks: map<string, Task>, nowMs: int, number: nat, request: Request, k: nat) returns (g: nat)
    requires forall j: nat :: 1 <= j <= k ==> Key(c, number, j) in tasks
    ensures 1 <= g <= k + 1 && PassedOver(c, tasks, nowMs, number, g, request)
    ensures g <= k ==> tasks[Key(c, number, g)].request == request && IsLive(tasks[Key(c, number, g)], nowMs)
  {
    hide GenerationKey, IsLive;
    g := 1;
    while g <= k && (tasks[Key(c, number, g)].request != request || !IsLive(tasks[Key(c, number, g)], nowMs))
      invariant 1 <= g <= k + 1 && PassedOver(c, tasks, nowMs, number, g, request)
    {
      g := g + 1;
    }
  }

  /** The calls for a generation that is no use are answered. */
  predicate Passes(c: Config, tasks: map<string, Task>, number: nat, request: Request, net: Network, j: nat) {
    && net.create(j) == Answered
    && (Key(c, number, j) in tasks && tasks[Key(c, number, j)].request == request ==> net.get(j))
  }

  /** No call is lost on the way to generation k + 1, and the one that creates it reaches the queue. */
  ghost predicate Reaches(c: Config, tasks: map<string, Task>, number: nat, request: Request, net: Network, from: nat, k: nat) {
    (forall j: nat :: from <= j <= k ==> Passes(c, tasks, number, request, net, j)) && net.create(k + 1) != LostBefore
  }

  lemma RetryPasses(c: Config, g: nat, tasks: map<string, Task>, number: nat, request: Request, nowMs: int, net: Network)
    requires 1 <= g <= MAX_GENERATIONS && Key(c, number, g) in tasks
    requires tasks[Key(c, number, g)].request != request || !IsLive(tasks[Key(c, number, g)], nowMs)
    ensures RetryFrom(g, tasks, c.repo, number, request, nowMs, net) ==
            if Passes(c, tasks, number, request, net, g) then RetryFrom(g + 1, tasks, c.repo, number, request, nowMs, net) else (tasks, CallFailed)
  {
    hide GenerationKey, IsLive;
  }

  lemma RetryCreates(c: Config, g: nat, tasks: map<string, Task>, number: nat, request: Request, nowMs: int, net: Network)
    requires 1 <= g <= MAX_GENERATIONS && Key(c, number, g) !in tasks
    ensures RetryFrom(g, tasks, c.repo, number, request, nowMs, net).0 != tasks <==> net.create(g) != LostBefore
  {
    hide GenerationKey;
    assert IsLive(NewTask(request), nowMs);
    hide IsLive;
    assert Key(c, number, g) in tasks[Key(c, number, g) := NewTask(request)];
  }

  lemma {:induction false} RetryAddsExactly(c: Config, from: nat, tasks: map<string, Task>, number: nat, request: Request, nowMs: int, net: Network, k: nat)
    requires 1 <= from <= k + 1 <= MAX_GENERATIONS && PassedOver(c, tasks, nowMs, number, k + 1, request) && Key(c, number, k + 1) !in tasks
    ensures RetryFrom(from, tasks, c.repo, number, request, nowMs, net).0 != tasks <==> Reaches(c, tasks, number, request, net, from, k)
    decreases k + 1 - from
  {
    hide GenerationKey, IsLive, RetryFrom, Passes;
    if from <= k {
      assert Key(c, number, from) in tasks;
      RetryPasses(c, from, tasks, number, request, nowMs, net);
      RetryAddsExactly(c, from + 1, tasks, number, request, nowMs, net, k);
    } else {
      RetryCreates(c, from, tasks, number, request, nowMs, net);
    }
  }

  /** The same for a network that loses calls: a task is added under those conditions, if none of the calls needed is lost. */
  lemma RetryForksUnderLoss(c: Config, states: seq<State>, events: seq<Event>, i: nat, number: nat, net: Network) returns (k: nat)
    requires Run(c, states, events) && i < |states| && number in states[i].issues
    ensures forall g: nat :: g >= 1 ==> (Key(c, number, g) in states[i].tasks <==> g <= k)
    ensures var s := states[i];
      var request := RequestNow(c, s, number);
      Retry(s.tasks, c.repo, number, request, s.nowMs, net).0 != s.tasks <==>
      !LiveWithRequest(c, s.tasks, s.nowMs, number, request) && k < MAX_GENERATIONS && Reaches(c, s.tasks, number, request, net, 1, k)
  {
    hide GenerationKey, IsLive, RequestOf, Enabled, After, RetryFrom, Reaches;
    var s := states[i];
    var request := RequestNow(c, s, number);
    k := GenerationsArePrefix(c, states, events, i, number);
    var g := FirstUsable(c, s.tasks, s.nowMs, number, request, k);
    if g == k + 1 && k < MAX_GENERATIONS {
      RetryAddsExactly(c, 1, s.tasks, number, request, s.nowMs, net, k);
    } else {
      RetryEffect(c, 1, s.tasks, number, request, s.nowMs, net);
    }
  }

  /** Only a retry tick puts another task beside one that is there: a step that adds a generation to an issue that has one is its retry. */
  lemma OnlyRetriesFork(c: Config, states: seq<State>, events: seq<Event>, i: nat, number: nat, g: nat, h: nat)
    requires Run(c, states, events) && i < |events| && g >= 1 && h >= 1
    requires Key(c, number, g) in states[i].tasks
    requires Key(c, number, h) !in states[i].tasks && Key(c, number, h) in states[i + 1].tasks
    ensures events[i].RetryTick? && events[i].number == number && h >= 2
  {
    hide GenerationKey, IsLive, RequestOf, RetryFrom, Verdict;
    var k := GenerationsArePrefix(c, states, events, i, number);
    match events[i]
    case RetryTick(n, net, _) =>
      RetryEffect(c, 1, states[i].tasks, n, RequestNow(c, states[i], n), states[i].nowMs, net);
      AddedIs(c, states[i], states[i + 1], n, RequestNow(c, states[i], n), number, h);
    case Promote(n, _) => if Key(c, n, 1) == Key(c, number, h) { KeysAreDistinct(c.repo, n, 1, number, h); }
    case Webhook(n, _, _) => if Key(c, n, 1) == Key(c, number, h) { KeysAreDistinct(c.repo, n, 1, number, h); }
    case _ =>
  }

  lemma AddedIs(c: Config, s: State, s': State, n: nat, request: Request, number: nat, h: nat)
    requires h >= 1 && Key(c, number, h) !in s.tasks && Key(c, number, h) in s'.tasks
    requires s'.tasks == s.tasks || exists a: nat :: AddsGeneration(c, s.tasks, s'.tasks, s.nowMs, n, a, request)
    ensures n == number
  {
    hide GenerationKey, PassedOver;
    var a: nat :| AddsGeneration(c, s.tasks, s'.tasks, s.nowMs, n, a, request);
    KeysAreDistinct(c.repo, n, a, number, h);
  }

  /**
   * One live task per issue is not kept: promote an issue, add the retry label, and the retry tick
   * queues a second generation beside the first, which is still being worked.
   */
  lemma RetryLabelForks(c: Config, number: nat, issue: Issue) returns (states: seq<State>, events: seq<Event>)
    requires RETRY_LABEL !in issue.labels
    ensures Run(c, states, events) && |events| == 4
    ensures var last := states[4];
      && Key(c, number, 1) != Key(c, number, 2)
      && Key(c, number, 1) in last.tasks && IsLive(last.tasks[Key(c, number, 1)], last.nowMs)
      && Key(c, number, 2) in last.tasks && IsLive(last.tasks[Key(c, number, 2)], last.nowMs)
  {
    hide GenerationKey, RetryFrom;
    var labelled := issue.(labels := issue.labels + [RETRY_LABEL]);
    var s0 := State(map[], map[], 0);
    var e0 := EditIssue(number, issue);
    var s1 := After(c, s0, e0);
    var e1 := Promote(number, Answered);
    var s2 := After(c, s1, e1);
    var e2 := EditIssue(number, labelled);
    var s3 := After(c, s2, e2);
    assert labelled.labels[|issue.labels|] == RETRY_LABEL;
    var e3 := RetryTick(number, CALM, true);
    if Key(c, number, 1) == Key(c, number, 2) { KeysAreDistinct(c.repo, number, 1, number, 2); }
    assert s2.tasks == map[Key(c, number, 1) := NewTask(RequestNow(c, s1, number))];
    assert RequestNow(c, s3, number).labels == labelled.labels && |labelled.labels| != |issue.labels|;
    assert PassedOver(c, s3.tasks, 0, number, 2, RequestNow(c, s3, number));
    RetryFinds(c, 1, s3.tasks, number, RequestNow(c, s3, number), 0, 2);
    states, events := [s0, s1, s2, s3, After(c, s3, e3)], [e0, e1, e2, e3];
  }

  // ----- rounds

  /** A review that sends the task back or gives it up. */
  predicate FailsTask(c: Config, s: State, e: Event, key: string) {
    e.Review? && e.acted && e.key == key && key in s.tasks && Verdict(s.tasks[key], e.pr, e.maxRounds) in {Reject, Drop}
  }

  function FailedOf(tasks: map<string, Task>, key: string): nat {
    if key in tasks then tasks[key].failedRounds else 0
  }

  /** The history counts exactly the failing verdicts. */
  lemma StepCounts(c: Config, s: State, e: Event, key: string)
    requires Inv(c, s) && Enabled(c, s, e)
    ensures FailedOf(After(c, s, e).tasks, key) == FailedOf(s.tasks, key) + if FailsTask(c, s, e, key) then 1 else 0
  {
    hide GenerationKey, RequestOf, Decide, IsLive, RetryFrom, NoGaps, EarlierDead, RoundsOk;
    if e.RetryTick? {
      RetryEffect(c, 1, s.tasks, e.number, RequestNow(c, s, e.number), s.nowMs, e.net);
    }
  }

  function Verdicts(c: Config, states: seq<State>, events: seq<Event>, n: nat, key: string): nat
    requires n <= |events| < |states|
  {
    if n == 0 then 0
    else Verdicts(c, states, events, n - 1, key) + (if FailsTask(c, states[n - 1], events[n - 1], key) then 1 else 0)
  }

  lemma {:induction false} HistoryCountsVerdicts(c: Config, states: seq<State>, events: seq<Event>, n: nat, key: string)
    requires Run(c, states, events) && n <= |events|
    ensures FailedOf(states[n].tasks, key) == Verdicts(c, states, events, n, key)
  {
    hide Enabled, After, FailsTask;
    if n > 0 {
      HistoryCountsVerdicts(c, states, events, n - 1, key);
      EveryStateOk(c, states, events, n - 1);
      StepCounts(c, states[n - 1], events[n - 1], key);
    }
  }

  /** Along any run one task gets at most as many failing verdicts as the largest --max-rounds used, or one. */
  lemma RoundsAreBounded(c: Config, states: seq<State>, events: seq<Event>, n: nat, key: string)
    requires Run(c, states, events) && n <= |events|
    ensures Verdicts(c, states, events, n, key) <= Rounds(c)
  {
    hide Enabled, After, FailsTask, NoGaps, EarlierDead;
    EveryStateOk(c, states, events, n);
    HistoryCountsVerdicts(c, states, events, n, key);
    assert key in states[n].tasks ==> RoundsOk(c, states[n].tasks[key]);
  }

  /**
   * The n-th review is round n: it comes after n - 1 failing verdicts. A verdict that uses up the
   * rounds is a drop, and it leaves nothing to review.
   */
  lemma ReviewRoundsCount(c: Config, states: seq<State>, events: seq<Event>, i: nat, key: string)
    requires Run(c, states, events) && i < |events| && FailsTask(c, states[i], events[i], key)
    ensures Round(states[i].tasks[key]) == Verdicts(c, states, events, i, key) + 1 <= Rounds(c)
    ensures Verdict(states[i].tasks[key], events[i].pr, events[i].maxRounds) == Reject ==> Round(states[i].tasks[key]) < Rounds(c)
    ensures Round(states[i].tasks[key]) == Rounds(c) ==> states[i + 1].tasks[key].stage == NotDoing
  {
    hide NoGaps, EarlierDead, RequestOf, Retry;
    EveryStateOk(c, states, events, i);
    HistoryCountsVerdicts(c, states, events, i, key);
    assert RoundsOk(c, states[i].tasks[key]);
    ReviewKeepsRounds(c, states[i].tasks[key], events[i].pr, events[i].maxRounds);
  }

  /** All failing verdicts an issue has had, over the generations it can have. */
  function IssueVerdicts(c: Config, states: seq<State>, events: seq<Event>, n: nat, number: nat, generations: nat): nat
    requires n <= |events| < |states|
  {
    if generations == 0 then 0
    else IssueVerdicts(c, states, events, n, number, generations - 1) + Verdicts(c, states, events, n, Key(c, number, generations))
  }

  lemma {:induction false} VerdictsUpTo(c: Config, states: seq<State>, events: seq<Event>, n: nat, number: nat, generations: nat)
    requires Run(c, states, events) && n <= |events|
    ensures IssueVerdicts(c, states, events, n, number, generations) <= generations * Rounds(c)
  {
    hide Run, GenerationKey, Verdicts;
    if generations > 0 {
      VerdictsUpTo(c, states, events, n, number, generations - 1);
      RoundsAreBounded(c, states, events, n, Key(c, number, generations));
      assert generations * Rounds(c) == (generations - 1) * Rounds(c) + Rounds(c);
    }
  }

  /** The loop cannot send an issue back forever: five generations, so many verdicts each. */
  lemma LoopCannotRejectForever(c: Config, states: seq<State>, events: seq<Event>, n: nat, number: nat, generation: nat)
    requires Run(c, states, events) && n <= |events|
    ensures IssueVerdicts(c, states, events, n, number, MAX_GENERATIONS) <= MAX_GENERATIONS * Rounds(c)
    ensures generation > MAX_GENERATIONS ==> Verdicts(c, states, events, n, Key(c, number, generation)) == 0
  {
    hide Run, GenerationKey, Verdicts;
    VerdictsUpTo(c, states, events, n, number, MAX_GENERATIONS);
    if generation > MAX_GENERATIONS {
      var k := GenerationsArePrefix(c, states, events, n, number) by { RunLength(c, states, events); }
      HistoryCountsVerdicts(c, states, events, n, Key(c, number, generation));
    }
  }

  lemma RunLength(c: Config, states: seq<State>, events: seq<Event>)
    requires Run(c, states, events)
    ensures |states| == |events| + 1
  {
  }

  // ----- the retry label

  lemma {:induction false} LabelGoes(labels: seq<string>, name: string, other: string)
    ensures other in WithoutLabel(labels, name) <==> other in labels && other != name
  {
    if labels != [] {
      LabelGoes(labels[1..], name, other);
      assert forall l :: l in labels <==> l == labels[0] || l in labels[1..];
    }
  }

  /**
   * A retry tick that finds or creates a task and takes the label away can not happen again until somebody puts the label
   * back; one that does not leaves the issue as it is. No other label and no other issue changes.
   */
  lemma RetryTakesLabel(c: Config, s: State, number: nat, net: Network, removed: bool)
    requires Enabled(c, s, RetryTick(number, net, removed))
    ensures var s' := After(c, s, RetryTick(number, net, removed));
      var taken := removed && Retry(s.tasks, c.repo, number, RequestNow(c, s, number), s.nowMs, net).1.Retried?;
      && "status:retry" in s.issues[number].labels
      && s'.issues.Keys == s.issues.Keys && (forall n :: n in s.issues && n != number ==> s'.issues[n] == s.issues[n])
      && (!taken ==> s'.issues == s.issues)
      && (taken ==> s'.issues[number] == s.issues[number].(labels := s'.issues[number].labels)
                    && (forall l :: l in s'.issues[number].labels <==> l in s.issues[number].labels && l != "status:retry")
                    && forall net', removed' :: !Enabled(c, s', RetryTick(number, net', removed')))
  {
    hide RetryFrom, RequestOf;
    forall l ensures l in WithoutLabel(s.issues[number].labels, RETRY_LABEL) <==> l in s.issues[number].labels && l != RETRY_LABEL {
      LabelGoes(s.issues[number].labels, RETRY_LABEL, l);
    }
  }
}
