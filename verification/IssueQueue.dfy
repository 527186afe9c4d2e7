/**
 * The task queue as the issue loop uses it: one task per idempotency key, a conflict when the key
 * is taken with another request, and the retry handler that looks for the first generation of an
 * issue that can still be worked.
 */
module IssueQueue {
  import opened Text

  const MAX_GENERATIONS := 5

  /** 365 days: a task whose next eligible time is further away has no attempts left. */
  const EXHAUSTED_HORIZON_MS := 365 * 24 * 3600 * 1000

  /** Where the queue parks a task that has used every attempt. */
  const FOREVER_MS := 9223372036854775807

  datatype Issue = Issue(title: string, body: string, url: string, labels: seq<string>)

  datatype Request = Request(
    pipeline: string, title: string, description: string,
    repo: string, number: nat, url: string, labels: seq<string>, bindingKey: string)

  datatype Stage = InDevelopment | InReview | Closed | Done | NotDoing

  /** `failedRounds` is history: the failing verdicts the task has had. */
  datatype Task = Task(request: Request, stage: Stage, version: nat, nextEligibleMs: int, failedRounds: nat)

  // ----- keys

  function BindingKey(repo: string, number: nat): string {
    "github:issue:" + repo + "#" + Decimal(number)
  }

  /** generationKey: generation 1 is the plain binding. */
  function GenerationKey(repo: string, number: nat, generation: nat): string {
    if generation <= 1 then BindingKey(repo, number)
    else BindingKey(repo, number) + ":g" + Decimal(generation)
  }

  function KeySuffix(generation: nat): string {
    if generation <= 1 then "" else ":g" + Decimal(generation)
  }

  /** Two generations of two issues never share a key. */
  lemma KeysAreDistinct(repo: string, number: nat, generation: nat, number': nat, generation': nat)
    requires generation >= 1 && generation' >= 1
    requires GenerationKey(repo, number, generation) == GenerationKey(repo, number', generation')
    ensures number == number' && generation == generation'
  {
    hide Decimal, BindingKey, GenerationKey;
    var head := KeyHead(repo);
    KeyIsHeadAndTail(repo, number, generation);
    KeyIsHeadAndTail(repo, number', generation');
    SameHead(head, Decimal(number) + KeySuffix(generation), Decimal(number') + KeySuffix(generation'));
    TailsAreDistinct(number, generation, number', generation');
  }

  function KeyHead(repo: string): string {
    "github:issue:" + repo + "#"
  }

  lemma KeyIsHeadAndTail(repo: string, number: nat, generation: nat)
    ensures GenerationKey(repo, number, generation) == KeyHead(repo) + (Decimal(number) + KeySuffix(generation))
  {
    hide Decimal;
  }

  lemma SameHead(head: string, a: string, b: string)
    requires head + a == head + b
    ensures a == b
  {
    assert a == (head + a)[|head|..] && b == (head + b)[|head|..];
  }

  lemma TailsAreDistinct(number: nat, generation: nat, number': nat, generation': nat)
    requires generation >= 1 && generation' >= 1
    requires Decimal(number) + KeySuffix(generation) == Decimal(number') + KeySuffix(generation')
    ensures number == number' && generation == generation'
  {
    hide Decimal;
    DigitsCutOnce(Decimal(number), KeySuffix(generation), Decimal(number'), KeySuffix(generation'));
    ValueOfDecimal(number);
    ValueOfDecimal(number');
    if generation > 1 && generation' > 1 {
      SameHead(":g", Decimal(generation), Decimal(generation'));
      ValueOfDecimal(generation);
      ValueOfDecimal(generation');
    }
  }

  // ----- tasks

  /** promotionRequest: the issue's labels are part of it. */
  function RequestOf(repo: string, pipeline: string, number: nat, issue: Issue): Request {
    Request(pipeline,
            repo + "#" + Decimal(number) + ": " + issue.title,
            Trim(issue.body + "\n\n" + issue.url),
            repo, number, issue.url, issue.labels, BindingKey(repo, number))
  }

  /** taskIsExhausted */
  predicate IsExhausted(task: Task, nowMs: int) {
    task.nextEligibleMs > 0 && task.nextEligibleMs - nowMs >= EXHAUSTED_HORIZON_MS
  }

  /** taskIsLive */
  predicate IsLive(task: Task, nowMs: int) {
    !(task.stage == Closed || task.stage == Done || task.stage == NotDoing) && !IsExhausted(task, nowMs)
  }

  /** A task as the queue creates it. */
  function NewTask(request: Request): Task {
    Task(request, InDevelopment, 1, 0, 0)
  }

  // ----- creating a task

  /** A call answered; lost before the server saw it; or carried out with the answer lost. */
  datatype Delivery = Answered | LostBefore | LostAfter

  datatype CreateReply = Created(id: string) | Conflict | Failed

  function CreateIn(tasks: map<string, Task>, key: string, request: Request, delivery: Delivery): map<string, Task> {
    if delivery == LostBefore || key in tasks then tasks else tasks[key := NewTask(request)]
  }

  function CreateAnswer(tasks: map<string, Task>, key: string, request: Request, delivery: Delivery): CreateReply {
    if delivery != Answered then Failed
    else if key in tasks && tasks[key].request != request then Conflict
    else Created(key)
  }

  /** The queue server. A task's id is the key it was created under. */
  class Server {
    var tasks: map<string, Task>

    method CreateTask(key: string, request: Request, delivery: Delivery) returns (reply: CreateReply)
      modifies this
      ensures tasks == CreateIn(old(tasks), key, request, delivery)
      ensures reply == CreateAnswer(old(tasks), key, request, delivery)
    {
      if delivery == LostBefore {
        return Failed;
      }
      reply := Created(key);
      if key in tasks {
        if tasks[key].request != request {
          reply := Conflict;
        }
      } else {
        tasks := tasks[key := NewTask(request)];
      }
      if delivery == LostAfter {
        reply := Failed;
      }
    }

    /** GetTask of a task just created or found; `answered` is whether the call got through. */
    method GetTask(id: string, answered: bool) returns (task: Option<Task>)
      ensures task == if answered && id in tasks then Some(tasks[id]) else None
    {
      task := if answered && id in tasks then Some(tasks[id]) else None;
    }
  }

  // ----- retrying an issue

  /** How each generation's two calls fare. */
  datatype Network = Network(create: nat -> Delivery, get: nat -> bool)

  const CALM := Network(_ => Answered, _ => true)

  datatype RetryReply = Retried(id: string, generation: nat) | CallFailed | NoLiveGeneration

  /** What retrying from generation `g` on does to the tasks and answers. */
  function RetryFrom(g: nat, tasks: map<string, Task>, repo: string, number: nat, request: Request, nowMs: int, net: Network):
    (map<string, Task>, RetryReply)
    decreases MAX_GENERATIONS + 1 - g
  {
    if g > MAX_GENERATIONS then (tasks, NoLiveGeneration) else
      var key := GenerationKey(repo, number, g);
      var tasks' := CreateIn(tasks, key, request, net.create(g));
      match CreateAnswer(tasks, key, request, net.create(g))
      case Failed => (tasks', CallFailed)
      case Conflict => RetryFrom(g + 1, tasks', repo, number, request, nowMs, net)
      case Created(id) =>
        if !net.get(g) then (tasks', CallFailed)
        else if !IsLive(tasks'[id], nowMs) then RetryFrom(g + 1, tasks', repo, number, request, nowMs, net)
        else (tasks', Retried(id, g))
  }

  function Retry(tasks: map<string, Task>, repo: string, number: nat, request: Request, nowMs: int, net: Network):
    (map<string, Task>, RetryReply)
  {
    RetryFrom(1, tasks, repo, number, request, nowMs, net)
  }

  /** The loop of retryIssue over the generations. */
  method RetryIssue(queue: Server, repo: string, pipeline: string, number: nat, issue: Issue, nowMs: int, net: Network)
    returns (reply: RetryReply)
    modifies queue
    ensures (queue.tasks, reply) == Retry(old(queue.tasks), repo, number, RequestOf(repo, pipeline, number, issue), nowMs, net)
  {
    hide GenerationKey, RequestOf, IsLive;
    var request := RequestOf(repo, pipeline, number, issue);
    for generation := 1 to MAX_GENERATIONS + 1
      invariant RetryFrom(generation, queue.tasks, repo, number, request, nowMs, net)
             == RetryFrom(1, old(queue.tasks), repo, number, request, nowMs, net)
    {
      var created := queue.CreateTask(GenerationKey(repo, number, generation), request, net.create(generation));
      if created.Conflict? {
        continue;
      }
      if created.Failed? {
        return CallFailed;
      }
      var task := queue.GetTask(created.id, net.get(generation));
      if task == None {
        return CallFailed;
      }
      if IsLive(task.value, nowMs) {
        return Retried(created.id, generation);
      }
    }
    return NoLiveGeneration;
  }

  /** The promote loop's call for one issue: generation 1, and a conflict leaves the existing task. */
  method PromoteIssue(queue: Server, repo: string, pipeline: string, number: nat, issue: Issue, delivery: Delivery)
    returns (reply: CreateReply)
    modifies queue
    ensures queue.tasks == CreateIn(old(queue.tasks), GenerationKey(repo, number, 1), RequestOf(repo, pipeline, number, issue), delivery)
    ensures reply == CreateAnswer(old(queue.tasks), GenerationKey(repo, number, 1), RequestOf(repo, pipeline, number, issue), delivery)
    ensures reply.Conflict? ==> queue.tasks == old(queue.tasks)
  {
    hide RequestOf;
    reply := queue.CreateTask(BindingKey(repo, number), RequestOf(repo, pipeline, number, issue), delivery);
  }
}
