/**
 * The issue loop as a transition system: promote and retry ticks, the webhook intake, workers,
 * reviews, edits and the clock, in any order, from an empty queue. Proved over every run: what
 * generations an issue gets, which of them can be live, and how often one can be sent back.
 */
module IssueLoop {
  import opened Text
  import opened PullRequests
  import opened IssueQueue

  /** `maxRounds` bounds the --max-rounds of every reconcile tick of a run. */
  datatype Config = Config(repo: string, pipeline: string, maxRounds: nat)

  datatype State = State(issues: map<nat, Issue>, tasks: map<string, Task>, nowMs: int)

  const RETRY_LABEL := "status:retry"

  /** A review is made with the --max-rounds of its tick; `acted` says whether the claim and the transition went through. */
  datatype Event =
    | Promote(number: nat, delivery: Delivery)
    | Webhook(number: nat, request: Request, delivery: Delivery)
    | RetryTick(number: nat, net: Network, labelRemoved: bool)
    | EditIssue(number: nat, issue: Issue)
    | CloseIssue(number: nat)
    | Submit(key: string)
    | WorkerDrop(key: string)
    | Defer(key: string, untilMs: int)
    | Park(key: string)
    | Withdraw(key: string)
    | Review(key: string, pr: Option<PullRequest>, maxRounds: nat, acted: bool)
    | Elapse(ms: nat)

  function Key(c: Config, number: nat, generation: nat): string {
    GenerationKey(c.repo, number, generation)
  }

  /** The request the loop sends for an issue as it stands. */
  function RequestNow(c: Config, s: State, number: nat): Request
    requires number in s.issues
  {
    RequestOf(c.repo, c.pipeline, number, s.issues[number])
  }

  function WithoutLabel(labels: seq<string>, name: string): seq<string> {
    if labels == [] then []
    else (if labels[0] == name then [] else [labels[0]]) + WithoutLabel(labels[1..], name)
  }

  /** The review round: task_version is bumped by every submit and every reject. */
  function Round(task: Task): nat {
    task.version / 2
  }

  /** The verdict of reconcileTask on a task in review: by its pull request, or on its absence. */
  function Verdict(task: Task, pr: Option<PullRequest>, maxRounds: nat): Decision {
    if pr.Some? then Decide(pr.value, Round(task), maxRounds) else DecideMissing(Round(task), maxRounds)
  }

  /** What the queue's transition does: approve and drop end the task, reject sends it back. */
  function Moved(task: Task, verdict: Decision): Task {
    match verdict
    case Approve => task.(stage := Stage.Closed)
    case Reject => task.(stage := InDevelopment, version := task.version + 1, failedRounds := task.failedRounds + 1)
    case Drop => task.(stage := NotDoing, failedRounds := task.failedRounds + 1)
    case _ => task
  }

  /** A task a worker can hold: in the work stage, with attempts left. */
  predicate Workable(s: State, key: string) {
    key in s.tasks && s.tasks[key].stage == InDevelopment && !IsExhausted(s.tasks[key], s.nowMs)
  }

  predicate Enabled(c: Config, s: State, e: Event) {
    match e
    case Promote(n, _) => n in s.issues
    case Webhook(_, _, _) => true
    case RetryTick(n, _, _) => n in s.issues && RETRY_LABEL in s.issues[n].labels
    case EditIssue(_, _) => true
    case CloseIssue(_) => true
    case Submit(k) => Workable(s, k)
    case WorkerDrop(k) => Workable(s, k)
    case Defer(k, until) => Workable(s, k) && until - s.nowMs < EXHAUSTED_HORIZON_MS
    case Park(k) => Workable(s, k)
    case Withdraw(k) => k in s.tasks && s.tasks[k].stage == InDevelopment && IsExhausted(s.tasks[k], s.nowMs)
    case Review(k, _, maxRounds, _) => k in s.tasks && s.tasks[k].stage == InReview && maxRounds <= c.maxRounds
    case Elapse(ms) => s.nowMs + ms <= FOREVER_MS - EXHAUSTED_HORIZON_MS
  }

  function Update(s: State, key: string, task: Task): State {
    s.(tasks := s.tasks[key := task])
  }

  function After(c: Config, s: State, e: Event): State
    requires Enabled(c, s, e)
  {
    match e
    case Promote(n, delivery) => s.(tasks := CreateIn(s.tasks, Key(c, n, 1), RequestNow(c, s, n), delivery))
    case Webhook(n, request, delivery) => s.(tasks := CreateIn(s.tasks, Key(c, n, 1), request, delivery))
    case RetryTick(n, net, removed) =>
      var (tasks, reply) := Retry(s.tasks, c.repo, n, RequestNow(c, s, n), s.nowMs, net);
      var issue := s.issues[n].(labels := WithoutLabel(s.issues[n].labels, RETRY_LABEL));
      State(if reply.Retried? && removed then s.issues[n := issue] else s.issues, tasks, s.nowMs)
    case EditIssue(n, issue) => s.(issues := s.issues[n := issue])
    case CloseIssue(n) => s.(issues := s.issues - {n})
    case Submit(k) => Update(s, k, s.tasks[k].(stage := InReview, version := s.tasks[k].version + 1))
    case WorkerDrop(k) => Update(s, k, s.tasks[k].(stage := NotDoing))
    case Defer(k, until) => Update(s, k, s.tasks[k].(nextEligibleMs := until))
    case Park(k) => Update(s, k, s.tasks[k].(nextEligibleMs := FOREVER_MS))
    case Withdraw(k) => Update(s, k, s.tasks[k].(stage := NotDoing))
    case Review(k, pr, maxRounds, acted) =>
      if acted then Update(s, k, Moved(s.tasks[k], Verdict(s.tasks[k], pr, maxRounds))) else s
    case Elapse(ms) => s.(nowMs := s.nowMs + ms)
  }

  /** A run: the states it goes through, one event between each two. */
  ghost predicate Run(c: Config, states: seq<State>, events: seq<Event>) {
    && |states| == |events| + 1
    && states[0].tasks == map[] && states[0].nowMs <= FOREVER_MS - EXHAUSTED_HORIZON_MS
    && forall i :: 0 <= i < |events| ==> Enabled(c, states[i], events[i]) && states[i + 1] == After(c, states[i], events[i])
  }

  // ----- one step

  /** What no step undoes: tasks stay, their requests stay, and dead tasks stay dead. */
  ghost predicate Keeps(s: State, s': State) {
    forall k :: k in s.tasks ==>
      && k in s'.tasks && s'.tasks[k].request == s.tasks[k].request
      && s'.tasks[k].failedRounds >= s.tasks[k].failedRounds
      && (!IsLive(s.tasks[k], s.nowMs) ==> !IsLive(s'.tasks[k], s'.nowMs))
  }

  /** Attempts are either left (eligible within the horizon) or gone for good. */
  ghost predicate TimesOk(s: State) {
    && s.nowMs <= FOREVER_MS - EXHAUSTED_HORIZON_MS
    && forall k :: k in s.tasks ==>
         s.tasks[k].nextEligibleMs == FOREVER_MS || s.tasks[k].nextEligibleMs - s.nowMs < EXHAUSTED_HORIZON_MS || s.tasks[k].nextEligibleMs <= 0
  }

  function Rounds(c: Config): nat {
    if c.maxRounds > 1 then c.maxRounds else 1
  }

  /** task_version tells the round: the n-th review has n - 1 failing verdicts behind it. */
  ghost predicate RoundsOk(c: Config, task: Task) {
    match task.stage
    case InDevelopment => task.version == 2 * task.failedRounds + 1 && task.failedRounds < Rounds(c)
    case InReview => task.version == 2 * task.failedRounds + 2 && task.failedRounds < Rounds(c)
    case _ => task.failedRounds <= Rounds(c)
  }

  /** The generations of an issue are numbered without a gap and at most MAX_GENERATIONS. */
  ghost predicate NoGaps(c: Config, tasks: map<string, Task>, number: nat) {
    forall g: nat :: g >= 2 && Key(c, number, g) in tasks ==> g <= MAX_GENERATIONS && Key(c, number, g - 1) in tasks
  }

  /** Of the generations created from one request only the last can be live. */
  ghost predicate EarlierDead(c: Config, s: State, number: nat) {
    forall g: nat, h: nat :: 1 <= g < h && Key(c, number, g) in s.tasks && Key(c, number, h) in s.tasks
      && s.tasks[Key(c, number, g)].request == s.tasks[Key(c, number, h)].request
      ==> !IsLive(s.tasks[Key(c, number, g)], s.nowMs)
  }

  ghost predicate Inv(c: Config, s: State) {
    && TimesOk(s)
    && (forall k :: k in s.tasks ==> RoundsOk(c, s.tasks[k]))
    && (forall n: nat :: NoGaps(c, s.tasks, n))
    && (forall n: nat :: EarlierDead(c, s, n))
  }

  /** Every generation before `g` is there and no use to this request. */
  ghost predicate PassedOver(c: Config, tasks: map<string, Task>, nowMs: int, number: nat, g: nat, request: Request) {
    forall j: nat :: 1 <= j < g ==>
      Key(c, number, j) in tasks && (tasks[Key(c, number, j)].request != request || !IsLive(tasks[Key(c, number, j)], nowMs))
  }

  /** The one thing a retry can add: the first generation not there yet. */
  ghost predicate AddsGeneration(c: Config, tasks: map<string, Task>, tasks': map<string, Task>, nowMs: int, number: nat, h: nat, request: Request) {
    && 1 <= h <= MAX_GENERATIONS && Key(c, number, h) !in tasks
    && tasks' == tasks[Key(c, number, h) := NewTask(request)]
    && PassedOver(c, tasks, nowMs, number, h, request)
  }

  lemma {:induction false} RetryEffect(c: Config, g: nat, tasks: map<string, Task>, number: nat, request: Request, nowMs: int, net: Network)
    requires g >= 1 && PassedOver(c, tasks, nowMs, number, g, request)
    ensures var tasks' := RetryFrom(g, tasks, c.repo, number, request, nowMs, net).0;
      tasks' == tasks || exists h: nat :: AddsGeneration(c, tasks, tasks', nowMs, number, h, request)
    decreases MAX_GENERATIONS + 1 - g
  {
    hide GenerationKey;
    if g <= MAX_GENERATIONS {
      if Key(c, number, g) in tasks {
        if CreateAnswer(tasks, Key(c, number, g), request, net.create(g)) != Failed {
          RetryEffectNext(c, g, tasks, number, request, nowMs, net);
        }
      } else if net.create(g) != LostBefore {
        assert AddsGeneration(c, tasks, tasks[Key(c, number, g) := NewTask(request)], nowMs, number, g, request);
      }
    }
  }

  lemma {:induction false} RetryEffectNext(c: Config, g: nat, tasks: map<string, Task>, number: nat, request: Request, nowMs: int, net: Network)
    requires 1 <= g <= MAX_GENERATIONS && PassedOver(c, tasks, nowMs, number, g, request) && Key(c, number, g) in tasks
    ensures var tasks' := RetryFrom(g, tasks, c.repo, number, request, nowMs, net).0;
      tasks' == tasks || exists h: nat :: AddsGeneration(c, tasks, tasks', nowMs, number, h, request)
    decreases MAX_GENERATIONS + 1 - g, 0
  {
    hide GenerationKey;
    if tasks[Key(c, number, g)].request != request || !IsLive(tasks[Key(c, number, g)], nowMs) {
      RetryEffect(c, g + 1, tasks, number, request, nowMs, net);
    }
  }

  /** Adding a generation of `number` keeps the invariant. */
  lemma AddKeepsInv(c: Config, s: State, s': State, number: nat, h: nat, request: Request)
    requires Inv(c, s) && s'.nowMs == s.nowMs
    requires AddsGeneration(c, s.tasks, s'.tasks, s.nowMs, number, h, request)
    ensures Inv(c, s') && Keeps(s, s')
  {
    hide GenerationKey, IsLive;
    var key := Key(c, number, h);
    forall n: nat, g: nat | g >= 1 && Key(c, n, g) == key ensures n == number && g == h {
      KeysAreDistinct(c.repo, n, g, number, h);
    }
    forall n: nat ensures NoGaps(c, s'.tasks, n) {
      assert NoGaps(c, s.tasks, n);
    }
    forall n: nat ensures EarlierDead(c, s', n) {
      assert EarlierDead(c, s, n) && NoGaps(c, s.tasks, n);
      NoneAbove(c, s.tasks, number, h);
    }
  }

  /** With generation h missing, so is every later one. */
  lemma {:induction false} NoneAbove(c: Config, tasks: map<string, Task>, number: nat, h: nat)
    requires h >= 1 && NoGaps(c, tasks, number) && Key(c, number, h) !in tasks
    ensures forall g: nat :: g >= h ==> Key(c, number, g) !in tasks
  {
    hide GenerationKey;
    forall g: nat | g >= h ensures Key(c, number, g) !in tasks {
      var j := h;
      while j < g
        invariant h <= j <= g && Key(c, number, j) !in tasks
      {
        j := j + 1;
      }
    }
  }

  /** Changing one task, but not its request and not back to life, keeps the invariant. */
  lemma UpdateKeepsInv(c: Config, s: State, key: string, task: Task)
    requires Inv(c, s) && key in s.tasks
    requires task.request == s.tasks[key].request && task.failedRounds >= s.tasks[key].failedRounds
    requires !IsLive(s.tasks[key], s.nowMs) ==> !IsLive(task, s.nowMs)
    requires RoundsOk(c, task)
    requires task.nextEligibleMs == FOREVER_MS || task.nextEligibleMs - s.nowMs < EXHAUSTED_HORIZON_MS || task.nextEligibleMs <= 0
    ensures Inv(c, Update(s, key, task)) && Keeps(s, Update(s, key, task))
  {
    hide GenerationKey, IsLive, RoundsOk;
    var s' := Update(s, key, task);
    forall n: nat ensures NoGaps(c, s'.tasks, n) && EarlierDead(c, s', n) {
      assert NoGaps(c, s.tasks, n) && EarlierDead(c, s, n);
    }
  }

  lemma ElapseKeepsInv(c: Config, s: State, ms: nat)
    requires Inv(c, s) && Enabled(c, s, Elapse(ms))
    ensures Inv(c, After(c, s, Elapse(ms))) && Keeps(s, After(c, s, Elapse(ms)))
  {
    hide GenerationKey, RoundsOk;
    var s' := After(c, s, Elapse(ms));
    forall n: nat ensures NoGaps(c, s'.tasks, n) && EarlierDead(c, s', n) {
      assert NoGaps(c, s.tasks, n) && EarlierDead(c, s, n);
    }
  }

  lemma RetryKeepsInv(c: Config, s: State, number: nat, request: Request, net: Network, s': State)
    requires Inv(c, s) && s'.nowMs == s.nowMs
    requires s'.tasks == Retry(s.tasks, c.repo, number, request, s.nowMs, net).0
    ensures Inv(c, s') && Keeps(s, s')
  {
    hide GenerationKey, IsLive, RoundsOk, RetryFrom, NoGaps, EarlierDead;
    RetryEffect(c, 1, s.tasks, number, request, s.nowMs, net);
    if s'.tasks == s.tasks {
      SameTasksKeepInv(c, s, s');
    } else {
      var h: nat :| AddsGeneration(c, s.tasks, s'.tasks, s.nowMs, number, h, request);
      AddKeepsInv(c, s, s', number, h, request);
    }
  }

  lemma SameTasksKeepInv(c: Config, s: State, s': State)
    requires Inv(c, s) && s'.tasks == s.tasks && s'.nowMs == s.nowMs
    ensures Inv(c, s') && Keeps(s, s')
  {
    hide GenerationKey, IsLive, RoundsOk;
    forall n: nat ensures NoGaps(c, s'.tasks, n) && EarlierDead(c, s', n) {
      assert NoGaps(c, s.tasks, n) && EarlierDead(c, s, n);
    }
  }

  lemma CreateFirstKeepsInv(c: Config, s: State, number: nat, request: Request, delivery: Delivery)
    requires Inv(c, s)
    ensures var s' := s.(tasks := CreateIn(s.tasks, Key(c, number, 1), request, delivery)); Inv(c, s') && Keeps(s, s')
  {
    hide GenerationKey, IsLive, RoundsOk, NoGaps, EarlierDead;
    var s' := s.(tasks := CreateIn(s.tasks, Key(c, number, 1), request, delivery));
    if s'.tasks == s.tasks {
      SameTasksKeepInv(c, s, s');
    } else {
      assert AddsGeneration(c, s.tasks, s'.tasks, s.nowMs, number, 1, request);
      AddKeepsInv(c, s, s', number, 1, request);
    }
  }

  /** A review moves the task within its rounds. */
  lemma ReviewKeepsRounds(c: Config, task: Task, pr: Option<PullRequest>, maxRounds: nat)
    requires RoundsOk(c, task) && task.stage == InReview && maxRounds <= c.maxRounds
    ensures RoundsOk(c, Moved(task, Verdict(task, pr, maxRounds)))
    ensures Round(task) == task.failedRounds + 1
  {
  }

  /** Every step keeps the invariant, every task and its request, and death. */
  lemma StepKeepsInv(c: Config, s: State, e: Event)
    requires Inv(c, s) && Enabled(c, s, e)
    ensures Inv(c, After(c, s, e)) && Keeps(s, After(c, s, e))
  {
    hide GenerationKey, NoGaps, EarlierDead, RequestOf, Retry, Decide, Keeps;
    var s' := After(c, s, e);
    match e
    case Promote(n, delivery) => CreateFirstKeepsInv(c, s, n, RequestNow(c, s, n), delivery);
    case Webhook(n, request, delivery) => CreateFirstKeepsInv(c, s, n, request, delivery);
    case RetryTick(n, net, _) => RetryKeepsInv(c, s, n, RequestNow(c, s, n), net, s');
    case EditIssue(_, _) => SameTasksKeepInv(c, s, s');
    case CloseIssue(_) => SameTasksKeepInv(c, s, s');
    case Submit(k) => UpdateKeepsInv(c, s, k, s'.tasks[k]);
    case WorkerDrop(k) => UpdateKeepsInv(c, s, k, s'.tasks[k]);
    case Defer(k, _) => UpdateKeepsInv(c, s, k, s'.tasks[k]);
    case Park(k) => UpdateKeepsInv(c, s, k, s'.tasks[k]);
    case Withdraw(k) => UpdateKeepsInv(c, s, k, s'.tasks[k]);
    case Review(k, pr, maxRounds, acted) =>
      ReviewKeepsRounds(c, s.tasks[k], pr, maxRounds);
      if acted { UpdateKeepsInv(c, s, k, s'.tasks[k]); } else { SameTasksKeepInv(c, s, s'); }
    case Elapse(ms) => ElapseKeepsInv(c, s, ms);
  }
}
