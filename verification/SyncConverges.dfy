/** When syncing the same issues again is sure to write no task. */
module SyncConverges {
  import opened Text
  import opened IssueBody
  import opened IssueFields
  import opened GithubSync

  /** All calls of a pass succeed. */
  predicate NoneFails(answers: seq<Answers>) {
    forall i :: 0 <= i < |answers| ==> LookupsWork(answers[i]) && answers[i].write
  }

  predicate LookupsWork(a: Answers) {
    a.idLookup && a.refLookup
  }

  /** The tasks an issue's lookups can answer when they work. */
  function Targets(tasks: map<string, Task>, issue: Issue): set<string> {
    var id := TaskId(issue.body);
    var byId := if id.Some? then ById(tasks, id.value) else {};
    if byId != {} then byId else ByRef(tasks, Ref(issue.number))
  }

  /** Each issue has its own number. */
  predicate Numbered(issues: seq<Issue>) {
    forall i, j :: 0 <= i < j < |issues| ==> issues[i].number != issues[j].number
  }

  /** Two open issues lead to the same task. */
  predicate Clash(tasks: map<string, Task>, a: Issue, b: Issue) {
    !a.closed && !b.closed && exists k :: k in Targets(tasks, a) && k in Targets(tasks, b)
  }

  ghost predicate NoClash(tasks: map<string, Task>, issues: seq<Issue>) {
    forall i, j :: 0 <= i < |issues| && 0 <= j < |issues| && i != j ==> !Clash(tasks, issues[i], issues[j])
  }

  /** A new task's short id is nobody's yet: no task has it, no issue names it. */
  ghost predicate Fresh(tasks: map<string, Task>, issues: seq<Issue>, id: string) {
    && IsUuid(id) && (forall k :: k in tasks ==> !(id[..8] <= k))
    && forall j :: 0 <= j < |issues| ==> TaskId(issues[j].body) != Some(id[..8])
  }

  /** Nothing is left to do for an issue. */
  ghost predicate Settled(find: string -> string, tasks: map<string, Task>, issue: Issue) {
    && (Targets(tasks, issue) == {} ==> issue.closed)
    && forall k :: k in Targets(tasks, issue) ==> InSync(find, tasks[k], issue)
  }

  /** A pass in which nothing fails, over issues as GitHub shows them, with fresh ids. */
  ghost predicate GoodPass(find: string -> string, states: seq<Store>, issues: seq<Issue>, answers: seq<Answers>, founds: seq<Option<string>>) {
    && Pass(find, states, issues, answers, founds) && NoneFails(answers)
    && Numbered(issues)
    && (forall i :: 0 <= i < |issues| ==> issues[i].number in states[0].bodies && states[0].bodies[issues[i].number] == issues[i].body)
    && (forall i :: 0 <= i < |issues| ==> Fresh(states[i].tasks, issues, answers[i].id))
  }

  // ----- what a write does to the lookups

  lemma RefsAreDistinct(m: nat, n: nat)
    ensures Ref(m) == Ref(n) ==> m == n
  {
    if Ref(m) == Ref(n) {
      assert Ref(m)[3..] == Decimal(m) && Ref(n)[3..] == Decimal(n);
      ValueOfDecimal(m);
      ValueOfDecimal(n);
    }
  }

  /** Bringing a task in line or closing it leaves every lookup as it was. */
  lemma EditKeepsTargets(tasks: map<string, Task>, id: string, task: Task, issue: Issue)
    requires id in tasks && task.ref == tasks[id].ref
    ensures Targets(tasks[id := task], issue) == Targets(tasks, issue)
  {
    hide TaskId, Ref;
    var tasks' := tasks[id := task];
    assert ById(tasks', if TaskId(issue.body).Some? then TaskId(issue.body).value else "") ==
           ById(tasks, if TaskId(issue.body).Some? then TaskId(issue.body).value else "");
    assert ByRef(tasks', Ref(issue.number)) == ByRef(tasks, Ref(issue.number));
  }

  /** A new task is found for its own issue and for no other. */
  lemma CreateTargets(tasks: map<string, Task>, id: string, task: Task, issue: Issue)
    requires Fresh(tasks, [issue], id)
    ensures var before, after := Targets(tasks, issue), Targets(tasks[id := task], issue);
      && (task.ref != Ref(issue.number) ==> after == before)
      && (task.ref == Ref(issue.number) && before == {} ==> after == {id})
  {
    hide TaskId, Ref;
    var tasks' := tasks[id := task];
    assert id !in tasks;
    var prefix := TaskId(issue.body);
    assert [issue][0] == issue;
    if prefix.Some? {
      TaskIdIsShort(issue.body);
      assert ById(tasks', prefix.value) == ById(tasks, prefix.value) by { PrefixOfFresh(prefix.value, id); }
    }
    assert ByRef(tasks', Ref(issue.number)) == ByRef(tasks, Ref(issue.number)) + if task.ref == Ref(issue.number) then {id} else {};
  }

  lemma PrefixOfFresh(short: string, id: string)
    requires IsShortId(short) && IsUuid(id) && short != id[..8]
    ensures !(short <= id)
  {
  }

  lemma {:induction false} TaskIdIsShort(body: string)
    ensures TaskId(body).Some? ==> IsShortId(TaskId(body).value)
  {
    if body != "" {
      TaskIdIsShort(body[1..]);
    }
  }

  // ----- one issue

  lemma AnsweredIsTargets(tasks: map<string, Task>, issue: Issue, a: Answers)
    requires LookupsWork(a)
    ensures Answered(tasks, issue, a) == Targets(tasks, issue)
    ensures forall k :: k in Targets(tasks, issue) ==> k in tasks
  {
    hide TaskId, Ref;
  }

  /** A successful step for an issue: what it leads to then, and that a new task is in line. */
  lemma StepSettles(find: string -> string, s: Store, issue: Issue, a: Answers, found: Option<string>)
    requires LookupsWork(a) && a.write && Finds(s.tasks, issue, a, found) && Fresh(s.tasks, [issue], a.id)
    ensures var tasks' := After(find, s, issue, a, found).tasks;
      && (found == None ==> Settled(find, tasks', issue))
      && (Targets(tasks', issue) == Targets(s.tasks, issue) || (Targets(s.tasks, issue) == {} && Targets(tasks', issue) == {a.id}))
  {
    hide TaskId, Ref, Description, Title, Priority, EpicOf, BodiesStamped, Answered, Targets, Fresh, IsUuid;
    AnsweredIsTargets(s.tasks, issue, a);
    assert IsUuid(a.id) by { FreshIsUuid(s.tasks, [issue], a.id); }
    var w := Due(find, s.tasks, issue, found, a.id);
    match w
    case Nothing =>
    case Close(id) => EditKeepsTargets(s.tasks, id, s.tasks[id].(status := "done"), issue);
    case Update(id) => EditKeepsTargets(s.tasks, id, InLine(find, s.tasks[id], issue), issue);
    case Create(id) => CreateTargets(s.tasks, id, NewTask(find, issue), issue);
  }

  lemma FreshIsUuid(tasks: map<string, Task>, issues: seq<Issue>, id: string)
    requires Fresh(tasks, issues, id)
    ensures IsUuid(id)
  {
  }

  /** A step for one issue leaves the lookups of another alone, and the other settled if it was, unless they clash. */
  lemma StepSpares(find: string -> string, s: Store, issue: Issue, a: Answers, found: Option<string>, other: Issue)
    requires LookupsWork(a) && a.write && Finds(s.tasks, issue, a, found) && Fresh(s.tasks, [other], a.id)
    requires issue.number != other.number
    ensures var tasks' := After(find, s, issue, a, found).tasks;
      && Targets(tasks', other) == Targets(s.tasks, other)
      && (Settled(find, s.tasks, other) && !Clash(s.tasks, issue, other) ==> Settled(find, tasks', other))
  {
    hide TaskId, Ref, Description, Title, Priority, EpicOf, BodiesStamped, Answered, Targets, Fresh, IsUuid;
    AnsweredIsTargets(s.tasks, issue, a);
    AnsweredIsTargets(s.tasks, other, a);
    RefsAreDistinct(issue.number, other.number);
    assert IsUuid(a.id) by { FreshIsUuid(s.tasks, [other], a.id); }
    var w := Due(find, s.tasks, issue, found, a.id);
    match w
    case Nothing =>
    case Close(id) => EditKeepsTargets(s.tasks, id, s.tasks[id].(status := "done"), other);
    case Update(id) => EditKeepsTargets(s.tasks, id, InLine(find, s.tasks[id], issue), other);
    case Create(id) =>
      assert id !in s.tasks by { FreshIsNew(s.tasks, [other], id); }
      CreateTargets(s.tasks, id, NewTask(find, issue), other);
  }

  lemma FreshIsNew(tasks: map<string, Task>, issues: seq<Issue>, id: string)
    requires Fresh(tasks, issues, id)
    ensures id !in tasks
  {
  }

  // ----- the issue as GitHub shows it after the stamp

  function Shown(s: Store, issue: Issue): Issue
    requires issue.number in s.bodies
  {
    issue.(body := s.bodies[issue.number])
  }

  /** An issue is shown as it was, or with the short id of a task stamped on it; either way it leads to the same task. */
  ghost predicate ShownOk(s: Store, issue: Issue) {
    && issue.number in s.bodies
    && (s.bodies[issue.number] == issue.body || exists k :: StampedWith(s, issue, k))
    && Targets(s.tasks, Shown(s, issue)) == Targets(s.tasks, issue)
  }

  ghost predicate StampedWith(s: Store, issue: Issue, k: string)
    requires issue.number in s.bodies
  {
    k in s.tasks && IsUuid(k) && TaskId(issue.body) == None && s.bodies[issue.number] == Stamped(k[..8], issue.body)
  }

  /** The stamp changes nothing of what an issue says about its task. */
  lemma StampKeepsMeaning(find: string -> string, issue: Issue, short: string, task: Task)
    requires IsShortId(short)
    ensures InSync(find, task, issue.(body := Stamped(short, issue.body))) == InSync(find, task, issue)
  {
    StampedFields(short, issue.body);
    StampKeepsDescription(issue, short);
    hide Stripped, Stamped, Priority, Epic, TaskId, IsShortId, Description, EpicKey, WithoutSprint;
  }

  lemma StampKeepsDescription(issue: Issue, short: string)
    requires IsShortId(short)
    ensures Description(issue.(body := Stamped(short, issue.body))) == Description(issue)
  {
    StampIsStripped(short, issue.body);
    assert Stamped(short, issue.body) != "" by { StampIsText(short, issue.body); }
    NothingIsStripped();
    hide Stripped, Stamped, IsShortId, Join, Decimal;
  }

  lemma StampIsText(short: string, body: string)
    ensures Stamped(short, body) != ""
  {
  }

  lemma TargetsAreTasks(tasks: map<string, Task>, issue: Issue)
    ensures forall k :: k in Targets(tasks, issue) ==> k in tasks
  {
    hide TaskId, Ref;
  }

  lemma ShownIsSettled(find: string -> string, s: Store, issue: Issue)
    requires ShownOk(s, issue) && Settled(find, s.tasks, issue)
    ensures Settled(find, s.tasks, Shown(s, issue))
  {
    hide InSync, TaskId, Targets, IsShortId, Stamped;
    assert forall t :: t in Targets(s.tasks, issue) ==> t in s.tasks by { TargetsAreTasks(s.tasks, issue); }
    if s.bodies[issue.number] != issue.body {
      var k :| StampedWith(s, issue, k);
      forall t | t in Targets(s.tasks, Shown(s, issue)) ensures InSync(find, s.tasks[t], Shown(s, issue)) {
        StampKeepsMeaning(find, issue, k[..8], s.tasks[t]);
      }
    }
  }

  // ----- one task

  /** What a successful step makes of the task it found. */
  function Next(find: string -> string, task: Task, issue: Issue): Task {
    if !issue.closed then InLine(find, task, issue) else if IsOver(task) then task else task.(status := "done")
  }

  lemma StepOnTask(find: string -> string, s: Store, issue: Issue, a: Answers, found: Option<string>, k: string)
    requires a.write && Finds(s.tasks, issue, a, found) && IsUuid(a.id) && a.id !in s.tasks && k in s.tasks
    ensures var tasks' := After(find, s, issue, a, found).tasks;
      k in tasks' && tasks'[k] == if found == Some(k) then Next(find, s.tasks[k], issue) else s.tasks[k]
  {
    hide Answered, IsUuid, InLine, NewTask, BodiesStamped, TaskId;
  }

  /** It is in line with its issue; and with another issue as before, unless both are open, or over if both are closed. */
  lemma NextInSync(find: string -> string, task: Task, issue: Issue, other: Issue)
    ensures InSync(find, Next(find, task, issue), issue)
    ensures issue.closed || other.closed ==>
              (InSync(find, Next(find, task, issue), other) <==> InSync(find, task, other) || (issue.closed && other.closed))
  {
    hide Title, Description, Priority, EpicOf;
  }

  /**
   * After m issues a task k that issue j leads to is in line with it: it was before, the pass found it for j, or it is to
   * be closed and the pass found it for some closed issue.
   */
  predicate CoveredBy(find: string -> string, tasks: map<string, Task>, issues: seq<Issue>, founds: seq<Option<string>>, m: nat, j: nat, k: string)
    requires m <= |issues| == |founds| && j < |issues| && k in tasks
  {
    || InSync(find, tasks[k], issues[j])
    || (j < m && founds[j] == Some(k))
    || (issues[j].closed && exists l :: 0 <= l < m && issues[l].closed && founds[l] == Some(k))
  }

  /** All tasks that the issues lead to are in line after the pass; of several tasks of an issue the pass finds only one. */
  ghost predicate Covered(find: string -> string, tasks: map<string, Task>, issues: seq<Issue>, founds: seq<Option<string>>) {
    && |founds| == |issues|
    && forall j, k :: 0 <= j < |issues| && k in Targets(tasks, issues[j]) ==> k in tasks && CoveredBy(find, tasks, issues, founds, |issues|, j, k)
  }

  // ----- a pass

  /** After m issues: what the issues lead to, and how those that are still to come are shown. */
  ghost predicate Inv(t0: map<string, Task>, s: Store, issues: seq<Issue>, m: nat) {
    && t0.Keys <= s.tasks.Keys
    && (forall j :: 0 <= j < |issues| ==> issues[j].number in s.bodies && ShownOk(s, issues[j]))
    && (forall j :: m <= j < |issues| ==> Shown(s, issues[j]) == issues[j] && Targets(s.tasks, issues[j]) == Targets(t0, issues[j]))
    && (forall j :: 0 <= j < |issues| && Targets(t0, issues[j]) != {} ==> Targets(s.tasks, issues[j]) == Targets(t0, issues[j]))
    && (NoClash(s.tasks, issues) <==> NoClash(t0, issues))
  }

  /** Without a clash: which tasks are in line after m issues. */
  ghost predicate InvCovered(find: string -> string, t0: map<string, Task>, s: Store, issues: seq<Issue>, founds: seq<Option<string>>, m: nat)
    requires m <= |issues| == |founds|
  {
    && (forall j :: 0 <= j < m && Targets(t0, issues[j]) == {} ==> Settled(find, s.tasks, issues[j]))
    && (forall j, k :: 0 <= j < |issues| && k in Targets(t0, issues[j]) ==> TaskOk(find, t0, s, issues, founds, m, j, k))
  }

  ghost predicate TaskOk(find: string -> string, t0: map<string, Task>, s: Store, issues: seq<Issue>, founds: seq<Option<string>>, m: nat, j: nat, k: string)
    requires m <= |issues| == |founds| && j < |issues|
  {
    k in t0 && k in s.tasks && (InSync(find, s.tasks[k], issues[j]) <==> CoveredBy(find, t0, issues, founds, m, j, k))
  }

  /** A new id is fresh for an issue as it is shown, too. */
  lemma FreshForShown(s: Store, issues: seq<Issue>, id: string, j: nat)
    requires Fresh(s.tasks, issues, id) && j < |issues| && ShownOk(s, issues[j])
    ensures Fresh(s.tasks, [issues[j]], id) && Fresh(s.tasks, [Shown(s, issues[j])], id)
  {
    hide TaskId, Targets, Stamped;
    var issue := issues[j];
    if s.bodies[issue.number] != issue.body {
      var k :| StampedWith(s, issue, k);
      StampedFields(k[..8], issue.body);
      assert k[..8] <= k;
    }
  }

  /** A step for one issue: what becomes of another. */
  lemma OtherStep(find: string -> string, s: Store, issue: Issue, a: Answers, found: Option<string>, other: Issue)
    requires LookupsWork(a) && a.write && Finds(s.tasks, issue, a, found) && IsUuid(a.id)
    requires issue.number != other.number
    requires ShownOk(s, other) && Fresh(s.tasks, [other], a.id) && Fresh(s.tasks, [Shown(s, other)], a.id)
    ensures var s' := After(find, s, issue, a, found);
      && other.number in s'.bodies && ShownOk(s', other) && Shown(s', other) == Shown(s, other)
      && Targets(s'.tasks, other) == Targets(s.tasks, other)
      && (Settled(find, s.tasks, other) && !Clash(s.tasks, issue, other) ==> Settled(find, s'.tasks, other))
  {
    hide TaskId, Targets, Stamped, Fresh, InSync, Clash, Due, Written, Finds, Settled, IsUuid;
    StepSpares(find, s, issue, a, found, other);
    StepSpares(find, s, issue, a, found, Shown(s, other));
    TasksStay(find, s, issue, a, found);
    var s' := After(find, s, issue, a, found);
    assert Shown(s', other) == Shown(s, other);
    if k :| StampedWith(s, other, k) {
      assert StampedWith(s', other, k);
    }
  }

  lemma TasksStay(find: string -> string, s: Store, issue: Issue, a: Answers, found: Option<string>)
    requires Finds(s.tasks, issue, a, found) && IsUuid(a.id)
    ensures s.tasks.Keys <= After(find, s, issue, a, found).tasks.Keys
  {
    hide Answered, IsUuid, InLine, InSync, BodiesStamped;
  }

  /** A step for an issue: what becomes of it. */
  lemma OwnStep(find: string -> string, s: Store, issue: Issue, a: Answers, found: Option<string>)
    requires LookupsWork(a) && a.write && Finds(s.tasks, issue, a, found) && Fresh(s.tasks, [issue], a.id) && IsUuid(a.id)
    requires issue.number in s.bodies && s.bodies[issue.number] == issue.body
    ensures var s' := After(find, s, issue, a, found);
      && issue.number in s'.bodies && ShownOk(s', issue) && (found == None ==> Settled(find, s'.tasks, issue))
      && (Targets(s'.tasks, issue) == Targets(s.tasks, issue) || (Targets(s.tasks, issue) == {} && Targets(s'.tasks, issue) == {a.id}))
  {
    hide TaskId, Stamped, Fresh, InSync, Settled, Answered, Targets, Title, Description, Priority, EpicOf, Ref;
    StepSettles(find, s, issue, a, found);
    var s' := After(find, s, issue, a, found);
    assert Shown(s, issue) == issue;
    if s'.bodies == s.bodies {
      assert Shown(s', issue) == issue;
    } else {
      assert s'.bodies[issue.number] == Stamped(a.id[..8], issue.body);
      AnsweredIsTargets(s.tasks, issue, a);
      CreateTargets(s.tasks, a.id, NewTask(find, issue), issue);
      StampLeadsToNewTask(s.tasks, a.id, NewTask(find, issue), issue);
      assert StampedWith(s', issue, a.id);
    }
  }

  lemma StampLeadsToNewTask(tasks: map<string, Task>, id: string, task: Task, issue: Issue)
    requires Fresh(tasks, [issue], id) && TaskId(issue.body) == None
    ensures Targets(tasks[id := task], issue.(body := Stamped(id[..8], issue.body))) == {id}
  {
    StampedFields(id[..8], issue.body);
    hide TaskId, Stamped, IsShortId, Ref;
    assert ById(tasks[id := task], id[..8]) == {id};
  }

  lemma InvStep(find: string -> string, states: seq<Store>, issues: seq<Issue>, answers: seq<Answers>, founds: seq<Option<string>>, i: nat)
    requires GoodPass(find, states, issues, answers, founds) && i < |issues| && Inv(states[0].tasks, states[i], issues, i)
    ensures Inv(states[0].tasks, states[i + 1], issues, i + 1)
  {
    hide ShownOk, Fresh, Settled, LookupsWork, IsUuid, After, Finds, Targets, Clash;
    var s, s', issue, a, found := states[i], states[i + 1], issues[i], answers[i], founds[i];
    assert Shown(s, issue) == issue;
    FreshForShown(s, issues, a.id, i);
    OwnStep(find, s, issue, a, found);
    TasksStay(find, s, issue, a, found);
    forall j | 0 <= j < |issues|
      ensures issues[j].number in s.bodies && issues[j].number in s'.bodies && ShownOk(s', issues[j])
      ensures j != i ==> Shown(s', issues[j]) == Shown(s, issues[j]) && Targets(s'.tasks, issues[j]) == Targets(s.tasks, issues[j])
    {
      FreshForShown(s, issues, a.id, j);
      if j != i {
        OtherStep(find, s, issue, a, found, issues[j]);
      }
    }
    NewIsNobodys(s.tasks, issues, a.id);
    forall j, l | 0 <= j < |issues| && 0 <= l < |issues| && j != l
      ensures Clash(s'.tasks, issues[j], issues[l]) <==> Clash(s.tasks, issues[j], issues[l])
    {
      SameClash(s.tasks, s'.tasks, issues[j], issues[l], a.id);
    }
  }

  /** What the step finds is something its issue led to at first; a new task is not. */
  lemma FoundAtFirst(find: string -> string, states: seq<Store>, issues: seq<Issue>, answers: seq<Answers>, founds: seq<Option<string>>, i: nat)
    requires GoodPass(find, states, issues, answers, founds) && i < |issues| && Inv(states[0].tasks, states[i], issues, i)
    ensures founds[i] == None <==> Targets(states[0].tasks, issues[i]) == {}
    ensures founds[i].Some? ==> founds[i].value in Targets(states[0].tasks, issues[i])
    ensures answers[i].id !in states[i].tasks && IsUuid(answers[i].id)
  {
    hide Targets, Answered, ShownOk, Clash, After, TaskId;
    AnsweredIsTargets(states[i].tasks, issues[i], answers[i]);
    FreshIsNew(states[i].tasks, issues, answers[i].id);
  }

  lemma CoverStep(find: string -> string, states: seq<Store>, issues: seq<Issue>, answers: seq<Answers>, founds: seq<Option<string>>, i: nat)
    requires GoodPass(find, states, issues, answers, founds) && i < |issues| && Inv(states[0].tasks, states[i], issues, i)
    requires NoClash(states[0].tasks, issues) && InvCovered(find, states[0].tasks, states[i], issues, founds, i)
    ensures InvCovered(find, states[0].tasks, states[i + 1], issues, founds, i + 1)
  {
    hide ShownOk, Fresh, Settled, LookupsWork, IsUuid, After, Finds, Targets, Clash, TaskOk;
    var s, s', issue, a, found := states[i], states[i + 1], issues[i], answers[i], founds[i];
    var t0 := states[0].tasks;
    FoundAtFirst(find, states, issues, answers, founds, i);
    FreshForShown(s, issues, a.id, i);
    OwnStep(find, s, issue, a, found);
    forall j | 0 <= j < i + 1 && Targets(t0, issues[j]) == {} ensures Settled(find, s'.tasks, issues[j]) {
      FreshForShown(s, issues, a.id, j);
      if j != i {
        OtherStep(find, s, issue, a, found, issues[j]);
      }
    }
    forall j, k | 0 <= j < |issues| && k in Targets(t0, issues[j]) ensures TaskOk(find, t0, s', issues, founds, i + 1, j, k) {
      assert TaskOk(find, t0, s, issues, founds, i, j, k);
      ClashIf(t0, issue, issues[j], k);
      TaskStep(find, t0, s, s', issues, founds, answers[i], i, j, k);
    }
  }

  lemma ClashIf(tasks: map<string, Task>, a: Issue, b: Issue, k: string)
    ensures k in Targets(tasks, a) && k in Targets(tasks, b) && !a.closed && !b.closed ==> Clash(tasks, a, b)
  {
    hide Targets;
  }

  lemma TaskStep(find: string -> string, t0: map<string, Task>, s: Store, s': Store, issues: seq<Issue>, founds: seq<Option<string>>, a: Answers,
                 i: nat, j: nat, k: string)
    requires i < |issues| == |founds| && j < |issues| && TaskOk(find, t0, s, issues, founds, i, j, k)
    requires a.write && IsUuid(a.id) && a.id !in s.tasks && Finds(s.tasks, issues[i], a, founds[i])
    requires s' == After(find, s, issues[i], a, founds[i])
    requires founds[i] == Some(k) && i != j ==> issues[i].closed || issues[j].closed
    ensures TaskOk(find, t0, s', issues, founds, i + 1, j, k)
  {
    hide After, Finds, InSync, Next, IsUuid;
    StepOnTask(find, s, issues[i], a, founds[i], k);
    NextInSync(find, s.tasks[k], issues[i], issues[j]);
  }

  /** A clash does not come or go when one of two issues gets a task that the other does not lead to. */
  lemma SameClash(tasks: map<string, Task>, tasks': map<string, Task>, a: Issue, b: Issue, id: string)
    requires Targets(tasks', a) == Targets(tasks, a) || (Targets(tasks, a) == {} && Targets(tasks', a) == {id})
    requires Targets(tasks', b) == Targets(tasks, b) || (Targets(tasks, b) == {} && Targets(tasks', b) == {id})
    requires Targets(tasks', a) == Targets(tasks, a) || Targets(tasks', b) == Targets(tasks, b)
    requires id !in Targets(tasks, a) && id !in Targets(tasks, b)
    ensures Clash(tasks', a, b) <==> Clash(tasks, a, b)
  {
    hide Targets;
  }

  lemma NewIsNobodys(tasks: map<string, Task>, issues: seq<Issue>, id: string)
    requires Fresh(tasks, issues, id)
    ensures forall j :: 0 <= j < |issues| ==> id !in Targets(tasks, issues[j])
  {
    hide Targets, TaskId;
    forall j | 0 <= j < |issues| ensures id !in Targets(tasks, issues[j]) { TargetsAreTasks(tasks, issues[j]); }
  }

  lemma {:induction false} InvHolds(find: string -> string, states: seq<Store>, issues: seq<Issue>, answers: seq<Answers>, founds: seq<Option<string>>, i: nat)
    requires GoodPass(find, states, issues, answers, founds) && i <= |issues|
    ensures Inv(states[0].tasks, states[i], issues, i)
    ensures NoClash(states[0].tasks, issues) ==> InvCovered(find, states[0].tasks, states[i], issues, founds, i)
  {
    if i > 0 {
      InvHolds(find, states, issues, answers, founds, i - 1);
      InvStep(find, states, issues, answers, founds, i - 1);
      if NoClash(states[0].tasks, issues) {
        CoverStep(find, states, issues, answers, founds, i - 1);
      }
    } else {
      InvStarts(find, states, issues, answers, founds);
    }
    hide *;
  }

  lemma InvStarts(find: string -> string, states: seq<Store>, issues: seq<Issue>, answers: seq<Answers>, founds: seq<Option<string>>)
    requires GoodPass(find, states, issues, answers, founds)
    ensures Inv(states[0].tasks, states[0], issues, 0) && InvCovered(find, states[0].tasks, states[0], issues, founds, 0)
  {
    hide Targets, Fresh, Settled, NoClash, After, Finds, InSync;
    forall j, k | 0 <= j < |issues| && k in Targets(states[0].tasks, issues[j]) ensures k in states[0].tasks {
      TargetsAreTasks(states[0].tasks, issues[j]);
    }
  }

  /** After the pass all issues are settled exactly if none clash and all their tasks are covered. */
  lemma AllSettledExactly(find: string -> string, states: seq<Store>, issues: seq<Issue>, answers: seq<Answers>, founds: seq<Option<string>>)
    requires GoodPass(find, states, issues, answers, founds)
    ensures (forall j :: 0 <= j < |issues| ==> Settled(find, states[|issues|].tasks, issues[j])) <==>
            NoClash(states[0].tasks, issues) && Covered(find, states[0].tasks, issues, founds)
  {
    InvHolds(find, states, issues, answers, founds, |issues|);
    var t0, s := states[0].tasks, states[|issues|];
    if NoClash(t0, issues) {
      SettledIsCovered(find, t0, s, issues, founds);
    } else {
      hide Targets, Clash, Settled, ShownOk, Pass, Fresh;
      var i, j :| 0 <= i < |issues| && 0 <= j < |issues| && i != j && Clash(s.tasks, issues[i], issues[j]);
      NumbersDiffer(find, states, issues, answers, founds, i, j);
      ClashIsUnsettled(find, s.tasks, issues[i], issues[j]);
    }
    hide *;
  }

  lemma SettledIsCovered(find: string -> string, t0: map<string, Task>, s: Store, issues: seq<Issue>, founds: seq<Option<string>>)
    requires |founds| == |issues| && Inv(t0, s, issues, |issues|) && InvCovered(find, t0, s, issues, founds, |issues|)
    ensures (forall j :: 0 <= j < |issues| ==> Settled(find, s.tasks, issues[j])) <==> Covered(find, t0, issues, founds)
  {
    hide ShownOk, Targets, InSync, CoveredBy, Clash, NoClash;
    forall j | 0 <= j < |issues| && Targets(t0, issues[j]) != {}
      ensures Settled(find, s.tasks, issues[j]) <==> forall k :: k in Targets(t0, issues[j]) ==> k in t0 && CoveredBy(find, t0, issues, founds, |issues|, j, k)
    {
      assert forall k :: k in Targets(t0, issues[j]) ==> TaskOk(find, t0, s, issues, founds, |issues|, j, k);
    }
    hide Settled, Inv;
  }

  lemma NumbersDiffer(find: string -> string, states: seq<Store>, issues: seq<Issue>, answers: seq<Answers>, founds: seq<Option<string>>, i: nat, j: nat)
    requires GoodPass(find, states, issues, answers, founds) && i < |issues| && j < |issues| && i != j
    ensures issues[i].number != issues[j].number
  {
    hide Pass, Fresh;
  }

  /** No task is in line with two open issues. */
  lemma ClashIsUnsettled(find: string -> string, tasks: map<string, Task>, a: Issue, b: Issue)
    requires Clash(tasks, a, b) && a.number != b.number
    ensures !Settled(find, tasks, a) || !Settled(find, tasks, b)
  {
    hide Targets, Title, Description, Priority, EpicOf;
    var k :| k in Targets(tasks, a) && k in Targets(tasks, b);
    if Settled(find, tasks, a) && Settled(find, tasks, b) {
      DescriptionNamesNumber(a, b);
      assert false;
    }
  }

  // ----- the next pass

  /** The issues of the next pass: each as it was fetched before, or as GitHub shows it now. */
  predicate Unchanged(s: Store, issues: seq<Issue>, issues': seq<Issue>) {
    |issues'| == |issues| && forall i :: 0 <= i < |issues| ==> issues'[i] == issues[i] || (issues[i].number in s.bodies && issues'[i] == Shown(s, issues[i]))
  }

  /** A settled issue calls for no write. */
  lemma SettledIsQuiet(find: string -> string, s: Store, issue: Issue, a: Answers, found: Option<string>)
    requires LookupsWork(a) && IsUuid(a.id) && Finds(s.tasks, issue, a, found) && Settled(find, s.tasks, issue)
    ensures After(find, s, issue, a, found) == s
  {
    hide Targets, Answered, IsUuid, InSync;
    AnsweredIsTargets(s.tasks, issue, a);
  }

  lemma {:induction false} QuietPass(find: string -> string, states: seq<Store>, issues: seq<Issue>, answers: seq<Answers>, founds: seq<Option<string>>, i: nat)
    requires Pass(find, states, issues, answers, founds) && i <= |issues|
    requires forall j :: 0 <= j < |issues| ==> LookupsWork(answers[j]) && Settled(find, states[0].tasks, issues[j])
    ensures states[i] == states[0]
  {
    hide Settled, LookupsWork, Finds, After, IsUuid;
    if i > 0 {
      QuietPass(find, states, issues, answers, founds, i - 1);
      SettledIsQuiet(find, states[i - 1], issues[i - 1], answers[i - 1], founds[i - 1]);
    }
  }

  // ----- two issues of one task

  lemma StepWrites(find: string -> string, s: Store, issue: Issue, a: Answers, found: Option<string>)
    requires Finds(s.tasks, issue, a, found) && IsUuid(a.id)
    ensures var s' := After(find, s, issue, a, found);
      && |s.writes| <= |s'.writes|
      && (|s'.writes| == |s.writes| ==> s'.tasks == s.tasks && Due(find, s.tasks, issue, found, a.id) == Nothing)
  {
    hide Answered, InSync, InLine, NewTask, BodiesStamped, IsUuid, TaskId;
  }

  /** A pass that attempts no write finds nothing due and leaves the tasks as they were all along. */
  lemma {:induction false} QuietMeansNothingDue(find: string -> string, states: seq<Store>, issues: seq<Issue>, answers: seq<Answers>,
                                                founds: seq<Option<string>>, i: nat)
    requires Pass(find, states, issues, answers, founds) && i <= |issues|
    ensures |states[0].writes| <= |states[i].writes|
    ensures |states[0].writes| == |states[i].writes| ==> forall j :: 0 <= j <= i ==> states[j].tasks == states[0].tasks
    ensures |states[0].writes| == |states[i].writes| ==>
              forall j :: 0 <= j < i ==> founds[j].Some? ==> founds[j].value in states[0].tasks && InSync(find, states[0].tasks[founds[j].value], issues[j])
  {
    hide Finds, After, InSync, IsUuid, TaskId;
    if i > 0 {
      QuietMeansNothingDue(find, states, issues, answers, founds, i - 1);
      StepWrites(find, states[i - 1], issues[i - 1], answers[i - 1], founds[i - 1]);
      FoundIsThere(states[i - 1].tasks, issues[i - 1], answers[i - 1], founds[i - 1]);
    }
  }

  /** A description opens with the number of its issue. */
  lemma DescriptionNamesNumber(a: Issue, b: Issue)
    requires Description(a) == Description(b)
    ensures a.number == b.number
  {
    var x := DescriptionStarts(a);
    var y := DescriptionStarts(b);
    hide Description, Decimal;
    assert Decimal(a.number) + x == Description(a)[|SYNCED|..] == Description(b)[|SYNCED|..] == Decimal(b.number) + y;
    DigitsCutOnce(Decimal(a.number), x, Decimal(b.number), y);
    ValueOfDecimal(a.number);
    ValueOfDecimal(b.number);
  }

  lemma DescriptionStarts(issue: Issue) returns (rest: string)
    ensures Description(issue) == SYNCED + Decimal(issue.number) + rest && rest != "" && rest[0] == '\n'
  {
    hide Stripped, Decimal;
    var parts := [SYNCED + Decimal(issue.number), "URL: " + issue.url];
    var cleaned := if issue.body == "" then "" else Stripped(issue.body);
    var all := if cleaned == "" then parts else parts + ["", cleaned];
    rest := "\n" + Join(all[1..]);
    assert Description(issue) == Join(all) == all[0] + "\n" + Join(all[1..]) == all[0] + rest;
  }

  /** Two open issues that find the same task never settle: every pass attempts a write. */
  lemma SharedTaskNeverSettles(find: string -> string, states: seq<Store>, issues: seq<Issue>, answers: seq<Answers>, founds: seq<Option<string>>, i: nat, j: nat)
    requires Pass(find, states, issues, answers, founds)
    requires i < j < |issues| && founds[i] == founds[j] && founds[i].Some?
    requires !issues[i].closed && !issues[j].closed && issues[i].number != issues[j].number
    ensures |states[|issues|].writes| > |states[0].writes|
  {
    hide Finds, Title, Description, Priority, EpicOf, IsUuid, After;
    QuietMeansNothingDue(find, states, issues, answers, founds, |issues|);
    if |states[|issues|].writes| == |states[0].writes| {
      DescriptionInSync(find, states[0].tasks, issues[i], founds[i]);
      DescriptionInSync(find, states[0].tasks, issues[j], founds[j]);
      DescriptionNamesNumber(issues[i], issues[j]);
      assert false;
    }
  }

  lemma DescriptionInSync(find: string -> string, tasks: map<string, Task>, issue: Issue, found: Option<string>)
    requires !issue.closed && found.Some? && found.value in tasks
    ensures InSync(find, tasks[found.value], issue) ==> tasks[found.value].description == Some(Description(issue))
  {
    hide Title, Description, Priority, EpicOf;
  }

  // ----- the second pass

  /** A pass over the issues of the first one, stamped or not, right after it, in which the lookups work. */
  ghost predicate SecondPass(find: string -> string, s: Store, issues: seq<Issue>,
                             states: seq<Store>, issues': seq<Issue>, answers: seq<Answers>, founds: seq<Option<string>>) {
    && Pass(find, states, issues', answers, founds) && states[0] == s && Unchanged(s, issues, issues')
    && forall i :: 0 <= i < |answers| ==> LookupsWork(answers[i])
  }

  /** Every second pass leaves everything as it is and attempts no write. */
  ghost predicate AlwaysQuiet(find: string -> string, s: Store, issues: seq<Issue>) {
    forall states, issues', answers, founds ::
      SecondPass(find, s, issues, states, issues', answers, founds) ==> states[|issues'|] == s
  }

  /** If the issues are settled, any second pass changes nothing and writes nothing. */
  lemma SettledMeansQuiet(find: string -> string, s: Store, issues: seq<Issue>,
                          states: seq<Store>, issues': seq<Issue>, answers: seq<Answers>, founds: seq<Option<string>>)
    requires SecondPass(find, s, issues, states, issues', answers, founds)
    requires forall j :: 0 <= j < |issues| ==> issues[j].number in s.bodies && ShownOk(s, issues[j]) && Settled(find, s.tasks, issues[j])
    ensures states[|issues'|] == s
  {
    hide Settled, LookupsWork, Finds, After, IsUuid, ShownOk, Targets;
    forall j | 0 <= j < |issues'| ensures Settled(find, s.tasks, issues'[j]) {
      if issues'[j] != issues[j] {
        ShownIsSettled(find, s, issues[j]);
      }
    }
    QuietPass(find, states, issues', answers, founds, |issues'|);
  }

  const OK_ANSWERS := Answers(true, true, true, false, false, "00000000")

  /** If a task some issue leads to is not in line, the database may answer with it, and then the pass attempts a write. */
  lemma UnsettledCanWrite(find: string -> string, s: Store, issues: seq<Issue>, i: nat, k: string)
    returns (states: seq<Store>, answers: seq<Answers>, founds: seq<Option<string>>)
    requires i < |issues| && k in Targets(s.tasks, issues[i]) && k in s.tasks && !InSync(find, s.tasks[k], issues[i])
    ensures SecondPass(find, s, issues, states, issues, answers, founds) && |states[|issues|].writes| > |s.writes|
  {
    hide Targets, After, InSync, Finds;
    states, answers, founds := [s], [], [];
    var m := 0;
    while m < |issues|
      invariant m <= |issues| && Pass(find, states, issues[..m], answers, founds) && states[0] == s
      invariant forall l :: 0 <= l < m ==> answers[l] == OK_ANSWERS
      invariant |states[m].writes| >= |s.writes| && (|states[m].writes| == |s.writes| ==> states[m].tasks == s.tasks && m <= i)
    {
      var found := SomeTarget(find, states[m], s, issues, m, i, k);
      var next := After(find, states[m], issues[m], OK_ANSWERS, found);
      StepWrites(find, states[m], issues[m], OK_ANSWERS, found);
      assert issues[..m + 1] == issues[..m] + [issues[m]];
      states, answers, founds := states + [next], answers + [OK_ANSWERS], founds + [found];
      m := m + 1;
    }
    assert issues[..|issues|] == issues;
  }

  /** Some answer of the lookups, and the task in question where it counts. */
  lemma SomeTarget(find: string -> string, now: Store, s: Store, issues: seq<Issue>, m: nat, i: nat, k: string) returns (found: Option<string>)
    requires m < |issues| && i < |issues| && k in Targets(s.tasks, issues[i]) && k in s.tasks && !InSync(find, s.tasks[k], issues[i])
    ensures Finds(now.tasks, issues[m], OK_ANSWERS, found) && IsUuid(OK_ANSWERS.id)
    ensures m == i && now.tasks == s.tasks ==> Due(find, now.tasks, issues[m], found, OK_ANSWERS.id) != Nothing
  {
    hide Targets, Answered, InSync;
    AnsweredIsTargets(now.tasks, issues[m], OK_ANSWERS);
    var c := Answered(now.tasks, issues[m], OK_ANSWERS);
    if m == i && now.tasks == s.tasks {
      found := Some(k);
    } else if c == {} {
      found := None;
    } else {
      var l :| l in c;
      found := Some(l);
    }
  }

  /**
   * The exact condition: after a pass in which nothing fails every second pass is quiet, whichever task the database
   * answers where it has several, if and only if no two open issues led to the same task and every task an issue led to
   * was in line already or found for it, or, to be closed, found for a closed issue.
   */
  lemma SecondPassIsQuietExactly(find: string -> string, states: seq<Store>, issues: seq<Issue>, answers: seq<Answers>, founds: seq<Option<string>>)
    requires GoodPass(find, states, issues, answers, founds)
    ensures NoClash(states[0].tasks, issues) && Covered(find, states[0].tasks, issues, founds) <==>
            AlwaysQuiet(find, states[|issues|], issues)
  {
    var s := states[|issues|];
    AllSettledExactly(find, states, issues, answers, founds);
    InvHolds(find, states, issues, answers, founds, |issues|);
    hide LookupsWork, Finds, After, IsUuid, ShownOk, Targets, InSync, Clash, NoClash, Covered, Pass, Fresh;
    if forall j :: 0 <= j < |issues| ==> Settled(find, s.tasks, issues[j]) {
      forall states', issues', answers', founds' | SecondPass(find, s, issues, states', issues', answers', founds')
        ensures states'[|issues'|] == s
      {
        SettledMeansQuiet(find, s, issues, states', issues', answers', founds');
      }
    } else {
      var i :| 0 <= i < |issues| && !Settled(find, s.tasks, issues[i]);
      var k := UnsettledTask(find, states, issues, answers, founds, i);
      var states', answers', founds' := UnsettledCanWrite(find, s, issues, i, k);
      assert SecondPass(find, s, issues, states', issues, answers', founds') && states'[|issues|] != s;
    }
  }

  /** An issue that is not settled after the pass leads to a task that is not in line. */
  lemma UnsettledTask(find: string -> string, states: seq<Store>, issues: seq<Issue>, answers: seq<Answers>, founds: seq<Option<string>>, i: nat)
    returns (k: string)
    requires GoodPass(find, states, issues, answers, founds) && i < |issues| && !Settled(find, states[|issues|].tasks, issues[i])
    ensures k in Targets(states[|issues|].tasks, issues[i]) && k in states[|issues|].tasks
    ensures !InSync(find, states[|issues|].tasks[k], issues[i])
  {
    var s := states[|issues|];
    if !issues[i].closed {
      LeadsSomewhere(find, states, issues, answers, founds, i, |issues|);
    }
    TargetsAreTasks(s.tasks, issues[i]);
    hide Targets, InSync;
    k :| k in Targets(s.tasks, issues[i]) && !InSync(find, s.tasks[k], issues[i]);
  }

  /** Once its turn is over an open issue leads to a task. */
  lemma {:induction false} LeadsSomewhere(find: string -> string, states: seq<Store>, issues: seq<Issue>, answers: seq<Answers>,
                                          founds: seq<Option<string>>, i: nat, m: nat)
    requires GoodPass(find, states, issues, answers, founds) && i < m <= |issues| && !issues[i].closed
    ensures Targets(states[m].tasks, issues[i]) != {}
  {
    InvHolds(find, states, issues, answers, founds, m - 1);
    if i < m - 1 {
      LeadsSomewhere(find, states, issues, answers, founds, i, m - 1);
    }
    LeadStep(find, states, issues, answers, founds, i, m - 1);
    hide *;
  }

  lemma LeadStep(find: string -> string, states: seq<Store>, issues: seq<Issue>, answers: seq<Answers>, founds: seq<Option<string>>, i: nat, m: nat)
    requires GoodPass(find, states, issues, answers, founds) && i <= m < |issues| && !issues[i].closed
    requires Inv(states[0].tasks, states[m], issues, m) && (i < m ==> Targets(states[m].tasks, issues[i]) != {})
    ensures Targets(states[m + 1].tasks, issues[i]) != {}
  {
    hide ShownOk, Fresh, LookupsWork, IsUuid, After, Finds, Targets, Clash, NoClash, InSync;
    FreshForShown(states[m], issues, answers[m].id, i);
    if i == m {
      FoundAtFirst(find, states, issues, answers, founds, i);
      OwnStep(find, states[i], issues[i], answers[i], founds[i]);
    } else {
      OtherStep(find, states[m], issues[m], answers[m], founds[m], issues[i]);
    }
  }

  /** Where each issue leads to at most one task nothing is left uncovered. */
  lemma OneTaskEachIsCovered(find: string -> string, states: seq<Store>, issues: seq<Issue>, answers: seq<Answers>, founds: seq<Option<string>>)
    requires GoodPass(find, states, issues, answers, founds)
    requires forall j, k, l :: 0 <= j < |issues| && k in Targets(states[0].tasks, issues[j]) && l in Targets(states[0].tasks, issues[j]) ==> k == l
    ensures Covered(find, states[0].tasks, issues, founds)
  {
    hide Targets, InSync, ShownOk, NoClash, Finds, After, Fresh;
    forall j, k | 0 <= j < |issues| && k in Targets(states[0].tasks, issues[j])
      ensures k in states[0].tasks && CoveredBy(find, states[0].tasks, issues, founds, |issues|, j, k)
    {
      TargetsAreTasks(states[0].tasks, issues[j]);
      InvHolds(find, states, issues, answers, founds, j);
      FoundAtFirst(find, states, issues, answers, founds, j);
    }
  }

  // ----- before the first pass

  /**
   * Each task an issue leads to is in line, or the only one the issue leads to, or is to be closed and the only one that
   * some closed issue leads to.
   */
  predicate Assured(find: string -> string, tasks: map<string, Task>, issues: seq<Issue>) {
    forall j, k :: 0 <= j < |issues| && k in Targets(tasks, issues[j]) ==> k in tasks && AssuredBy(find, tasks, issues, j, k)
  }

  predicate AssuredBy(find: string -> string, tasks: map<string, Task>, issues: seq<Issue>, j: nat, k: string)
    requires j < |issues| && k in tasks
  {
    || InSync(find, tasks[k], issues[j])
    || Targets(tasks, issues[j]) == {k}
    || (issues[j].closed && exists l :: 0 <= l < |issues| && issues[l].closed && Targets(tasks, issues[l]) == {k})
  }

  /** The same tasks with the same references. */
  predicate Alike(tasks: map<string, Task>, tasks': map<string, Task>) {
    tasks.Keys == tasks'.Keys && forall k :: k in tasks ==> tasks[k].ref == tasks'[k].ref
  }

  lemma AlikeTargets(tasks: map<string, Task>, tasks': map<string, Task>, issue: Issue, a: Answers)
    requires Alike(tasks, tasks')
    ensures Targets(tasks', issue) == Targets(tasks, issue) && Answered(tasks', issue, a) == Answered(tasks, issue, a)
  {
    hide TaskId, Ref;
    var id := TaskId(issue.body);
    if id.Some? {
      assert ById(tasks', id.value) == ById(tasks, id.value);
    }
    assert ByRef(tasks', Ref(issue.number)) == ByRef(tasks, Ref(issue.number));
  }

  /** Which task is found makes no difference to what tasks there are and to what is stamped. */
  lemma AlikeStep(find: string -> string, s: Store, t: Store, issue: Issue, a: Answers, found: Option<string>, found': Option<string>)
    requires Alike(s.tasks, t.tasks) && s.bodies == t.bodies && IsUuid(a.id) && a.id !in s.tasks
    requires Finds(s.tasks, issue, a, found) && Finds(t.tasks, issue, a, found')
    ensures var s', t' := After(find, s, issue, a, found), After(find, t, issue, a, found');
            Alike(s'.tasks, t'.tasks) && s'.bodies == t'.bodies
  {
    AlikeTargets(s.tasks, t.tasks, issue, a);
    AlikeWritten(find, s.tasks, issue, a, found);
    AlikeWritten(find, t.tasks, issue, a, found');
    hide Answered, TaskId, Written, Due, IsUuid, BodiesStamped, NewTask;
  }

  /** A write adds the new task of an open issue for which nothing is found, or else leaves tasks and references alone. */
  lemma AlikeWritten(find: string -> string, tasks: map<string, Task>, issue: Issue, a: Answers, found: Option<string>)
    requires Finds(tasks, issue, a, found) && a.id !in tasks
    ensures var w := Due(find, tasks, issue, found, a.id); var c := found == None && !issue.closed;
      && (w.Create? <==> c)
      && Alike(if c then tasks[a.id := NewTask(find, issue)] else tasks, Written(find, tasks, issue, w))
  {
    FoundIsThere(tasks, issue, a, found);
    hide Answered, TaskId, InSync, Title, Description, Priority, EpicOf, Ref;
  }

  ghost predicate SameStore(s: Store, t: Store) {
    Alike(s.tasks, t.tasks) && s.bodies == t.bodies
  }

  /** A step that finds k only where its issue leads to nothing else. */
  ghost predicate Avoids(find: string -> string, t0: map<string, Task>, issue: Issue, a: Answers, k: string, s: Store, s': Store, found: Option<string>) {
    && IsUuid(a.id) && Finds(s.tasks, issue, a, found) && s' == After(find, s, issue, a, found)
    && (found == Some(k) ==> Targets(t0, issue) == {k})
  }

  /** The first m steps of the same pass, each finding k only where nothing else can be found. */
  ghost predicate AvoidsUpTo(find: string -> string, states: seq<Store>, issues: seq<Issue>, answers: seq<Answers>, k: string,
                             states': seq<Store>, founds': seq<Option<string>>, m: nat) {
    && m <= |issues| == |answers| && |states| == |issues| + 1 && |states'| == m + 1 && |founds'| == m && states'[0] == states[0]
    && (forall i :: 0 <= i <= m ==> SameStore(states[i], states'[i]))
    && forall i :: 0 <= i < m ==> Avoids(find, states[0].tasks, issues[i], answers[i], k, states'[i], states'[i + 1], founds'[i])
  }

  lemma {:induction false} SomeAvoid(find: string -> string, states: seq<Store>, issues: seq<Issue>, answers: seq<Answers>,
                                     founds: seq<Option<string>>, k: string, m: nat)
    returns (states': seq<Store>, founds': seq<Option<string>>)
    requires GoodPass(find, states, issues, answers, founds) && m <= |issues|
    ensures AvoidsUpTo(find, states, issues, answers, k, states', founds', m)
  {
    if m == 0 {
      states', founds' := [states[0]], [];
    } else {
      var some, found := SomeAvoid(find, states, issues, answers, founds, k, m - 1);
      hide AvoidsUpTo, GoodPass;
      states', founds' := AvoidNext(find, states, issues, answers, founds, k, some, found, m - 1);
    }
  }

  lemma AvoidNext(find: string -> string, states: seq<Store>, issues: seq<Issue>, answers: seq<Answers>, founds: seq<Option<string>>, k: string,
                  some: seq<Store>, found: seq<Option<string>>, m: nat)
    returns (states': seq<Store>, founds': seq<Option<string>>)
    requires GoodPass(find, states, issues, answers, founds) && m < |issues|
    requires AvoidsUpTo(find, states, issues, answers, k, some, found, m)
    ensures AvoidsUpTo(find, states, issues, answers, k, states', founds', m + 1)
  {
    hide Avoids, SameStore, NoneFails, Numbered, Fresh, Finds, After, IsUuid;
    var next, s' := AvoidStep(find, states, issues, answers, founds, k, some[m], m);
    states', founds' := some + [s'], found + [next];
  }

  lemma AvoidStep(find: string -> string, states: seq<Store>, issues: seq<Issue>, answers: seq<Answers>, founds: seq<Option<string>>, k: string,
                  s: Store, m: nat)
    returns (next: Option<string>, s': Store)
    requires GoodPass(find, states, issues, answers, founds) && m < |issues| && SameStore(states[m], s)
    ensures Avoids(find, states[0].tasks, issues[m], answers[m], k, s, s', next) && SameStore(states[m + 1], s')
  {
    InvHolds(find, states, issues, answers, founds, m);
    FoundAtFirst(find, states, issues, answers, founds, m);
    hide Targets, After, InSync, Finds, Fresh, Numbered, IsUuid, Inv, Alike;
    next := OtherThan(states, s.tasks, issues, answers, m, k);
    AlikeStep(find, states[m], s, issues[m], answers[m], founds[m], next);
    s' := After(find, s, issues[m], answers[m], next);
  }

  /** The same pass, but it finds k only where nothing else can be found. */
  lemma Avoiding(find: string -> string, states: seq<Store>, issues: seq<Issue>, answers: seq<Answers>, founds: seq<Option<string>>, k: string)
    returns (states': seq<Store>, founds': seq<Option<string>>)
    requires GoodPass(find, states, issues, answers, founds)
    ensures GoodPass(find, states', issues, answers, founds') && states'[0] == states[0]
    ensures forall i :: 0 <= i < |issues| && founds'[i] == Some(k) ==> Targets(states[0].tasks, issues[i]) == {k}
  {
    states', founds' := SomeAvoid(find, states, issues, answers, founds, k, |issues|);
    AvoidingIsPass(find, states, issues, answers, k, states', founds');
    hide Pass, Fresh, NoneFails, Numbered, Alike, Avoids, AvoidsUpTo, Targets;
    forall i | 0 <= i < |issues| ensures Fresh(states'[i].tasks, issues, answers[i].id) {
      FreshAlike(states[i].tasks, states'[i].tasks, issues, answers[i].id);
    }
  }

  lemma AvoidingIsPass(find: string -> string, states: seq<Store>, issues: seq<Issue>, answers: seq<Answers>, k: string,
                       states': seq<Store>, founds': seq<Option<string>>)
    requires AvoidsUpTo(find, states, issues, answers, k, states', founds', |issues|)
    ensures Pass(find, states', issues, answers, founds') && states'[0] == states[0]
    ensures forall i :: 0 <= i <= |issues| ==> Alike(states[i].tasks, states'[i].tasks)
    ensures forall i :: 0 <= i < |issues| && founds'[i] == Some(k) ==> Targets(states[0].tasks, issues[i]) == {k}
  {
    hide Targets, After, Finds, IsUuid, Alike;
    forall i | 0 <= i <= |issues| ensures Alike(states[i].tasks, states'[i].tasks) {
      assert SameStore(states[i], states'[i]);
    }
    forall i | 0 <= i < |issues|
      ensures IsUuid(answers[i].id) && Finds(states'[i].tasks, issues[i], answers[i], founds'[i])
      ensures states'[i + 1] == After(find, states'[i], issues[i], answers[i], founds'[i])
      ensures founds'[i] == Some(k) ==> Targets(states[0].tasks, issues[i]) == {k}
    {
      assert Avoids(find, states[0].tasks, issues[i], answers[i], k, states'[i], states'[i + 1], founds'[i]);
    }
  }

  lemma FreshAlike(tasks: map<string, Task>, tasks': map<string, Task>, issues: seq<Issue>, id: string)
    requires Alike(tasks, tasks') && Fresh(tasks, issues, id)
    ensures Fresh(tasks', issues, id)
  {
    hide TaskId;
  }

  lemma OtherThan(states: seq<Store>, now: map<string, Task>, issues: seq<Issue>, answers: seq<Answers>, m: nat, k: string)
    returns (found: Option<string>)
    requires m < |issues| == |answers| && m < |states| && Inv(states[0].tasks, states[m], issues, m)
    requires Alike(states[m].tasks, now) && LookupsWork(answers[m])
    ensures Finds(now, issues[m], answers[m], found)
    ensures found == Some(k) ==> Targets(states[0].tasks, issues[m]) == {k}
  {
    hide Targets, ShownOk, NoClash, Answered;
    AlikeTargets(states[m].tasks, now, issues[m], answers[m]);
    AnsweredIsTargets(now, issues[m], answers[m]);
    var c := Answered(now, issues[m], answers[m]);
    if c == {} {
      found := None;
    } else if c == {k} {
      found := Some(k);
    } else {
      assert c - {k} != {};
      var l :| l in c - {k};
      found := Some(l);
    }
  }

  /**
   * The condition before the first pass: whichever tasks the database answers in the two passes, the second is quiet, if
   * and only if no two open issues lead to the same task and every task an issue leads to is in line, the only one, or
   * sure to be closed by another issue.
   */
  lemma TwoPassesSettleExactly(find: string -> string, states: seq<Store>, issues: seq<Issue>, answers: seq<Answers>, founds: seq<Option<string>>)
    requires GoodPass(find, states, issues, answers, founds)
    ensures NoClash(states[0].tasks, issues) && Assured(find, states[0].tasks, issues) <==>
            forall states', founds' :: GoodPass(find, states', issues, answers, founds') && states'[0] == states[0] ==>
              AlwaysQuiet(find, states'[|issues|], issues)
  {
    var t0 := states[0].tasks;
    hide Targets, InSync, ShownOk, NoClash, Finds, After, Fresh, AlwaysQuiet, AssuredBy, CoveredBy, Numbered, NoneFails;
    if NoClash(t0, issues) && Assured(find, t0, issues) {
      forall states', founds' | GoodPass(find, states', issues, answers, founds') && states'[0] == states[0]
        ensures AlwaysQuiet(find, states'[|issues|], issues)
      {
        AssuredIsCovered(find, states', issues, answers, founds');
        SecondPassIsQuietExactly(find, states', issues, answers, founds');
      }
    } else if !NoClash(t0, issues) {
      SecondPassIsQuietExactly(find, states, issues, answers, founds);
    } else {
      var j, k :| 0 <= j < |issues| && k in Targets(t0, issues[j]) && !(k in t0 && AssuredBy(find, t0, issues, j, k));
      TargetsAreTasks(t0, issues[j]);
      var states', founds' := Avoiding(find, states, issues, answers, founds, k);
      NotCovered(find, t0, issues, founds', j, k);
      SecondPassIsQuietExactly(find, states', issues, answers, founds');
    }
  }

  lemma AssuredIsCovered(find: string -> string, states: seq<Store>, issues: seq<Issue>, answers: seq<Answers>, founds: seq<Option<string>>)
    requires GoodPass(find, states, issues, answers, founds) && Assured(find, states[0].tasks, issues)
    ensures Covered(find, states[0].tasks, issues, founds)
  {
    var t0 := states[0].tasks;
    hide Targets, InSync, AssuredBy, CoveredBy, Inv, Pass, Fresh, Numbered;
    forall l, k | 0 <= l < |issues| && Targets(t0, issues[l]) == {k} ensures founds[l] == Some(k) {
      InvHolds(find, states, issues, answers, founds, l);
      FoundAtFirst(find, states, issues, answers, founds, l);
      assert founds[l].value in {k};
    }
    forall j, k | 0 <= j < |issues| && k in Targets(t0, issues[j]) ensures CoveredBy(find, t0, issues, founds, |issues|, j, k) {
      AssuredTask(find, t0, issues, founds, j, k);
    }
  }

  lemma AssuredTask(find: string -> string, tasks: map<string, Task>, issues: seq<Issue>, founds: seq<Option<string>>, j: nat, k: string)
    requires |founds| == |issues| && j < |issues| && k in tasks && AssuredBy(find, tasks, issues, j, k)
    requires forall l :: 0 <= l < |issues| && Targets(tasks, issues[l]) == {k} ==> founds[l] == Some(k)
    ensures CoveredBy(find, tasks, issues, founds, |issues|, j, k)
  {
    hide Targets, InSync;
  }

  lemma NotCovered(find: string -> string, tasks: map<string, Task>, issues: seq<Issue>, founds: seq<Option<string>>, j: nat, k: string)
    requires |founds| == |issues| && j < |issues| && k in tasks && k in Targets(tasks, issues[j]) && !AssuredBy(find, tasks, issues, j, k)
    requires forall i :: 0 <= i < |issues| && founds[i] == Some(k) ==> Targets(tasks, issues[i]) == {k}
    ensures !Covered(find, tasks, issues, founds)
  {
    hide Targets, InSync;
  }

  /** An open issue with two tasks out of line, as a failed lookup leaves it, is never covered by one pass. */
  lemma TwoTasksAreNotCovered(find: string -> string, tasks: map<string, Task>, issues: seq<Issue>, founds: seq<Option<string>>, j: nat, k: string, l: string)
    requires j < |issues| && !issues[j].closed && k != l && {k, l} <= Targets(tasks, issues[j]) && k in tasks && l in tasks
    requires !InSync(find, tasks[k], issues[j]) && !InSync(find, tasks[l], issues[j])
    ensures !Covered(find, tasks, issues, founds)
  {
    hide Targets, InSync;
  }

  /** In particular: if each issue leads to at most one task, and no two open ones to the same, any second pass is quiet. */
  lemma SecondPassIsQuiet(find: string -> string,
                          states: seq<Store>, issues: seq<Issue>, answers: seq<Answers>, founds: seq<Option<string>>,
                          states': seq<Store>, issues': seq<Issue>, answers': seq<Answers>, founds': seq<Option<string>>)
    requires GoodPass(find, states, issues, answers, founds) && NoClash(states[0].tasks, issues)
    requires forall j, k, l :: 0 <= j < |issues| && k in Targets(states[0].tasks, issues[j]) && l in Targets(states[0].tasks, issues[j]) ==> k == l
    requires SecondPass(find, states[|issues|], issues, states', issues', answers', founds')
    ensures states'[|issues'|] == states[|issues|]
  {
    hide Targets, NoClash, SecondPass, Covered;
    OneTaskEachIsCovered(find, states, issues, answers, founds);
    SecondPassIsQuietExactly(find, states, issues, answers, founds);
  }

  // ----- failed lookups

  /**
   * A failed lookup is taken for "no task". An open issue that has a task gets a second one exactly when the write goes
   * through and neither lookup answers: the id is not in the body, not looked up or unknown, and the reference is not
   * looked up or unknown.
   */
  lemma FailedLookupDuplicates(find: string -> string, s: Store, issue: Issue, a: Answers, found: Option<string>)
    requires Finds(s.tasks, issue, a, found) && IsUuid(a.id) && a.id !in s.tasks
    requires !issue.closed && Targets(s.tasks, issue) != {}
    ensures var tasks' := After(find, s, issue, a, found).tasks;
      && (tasks' == s.tasks[a.id := NewTask(find, issue)] || tasks'.Keys == s.tasks.Keys)
      && (a.id in tasks' <==>
            && a.write
            && (TaskId(issue.body) == None || !a.idLookup || ById(s.tasks, TaskId(issue.body).value) == {})
            && (!a.refLookup || ByRef(s.tasks, Ref(issue.number)) == {}))
  {
    hide TaskId, Ref, Title, Description, Priority, EpicOf, BodiesStamped, InSync, InLine, NewTask;
  }
}
