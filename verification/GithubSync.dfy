/** lw github sync: GitHub issues drive tasks, and a created task's id is stamped back into its issue. */
module GithubSync {
  import opened Text
  import opened IssueBody
  import opened IssueFields
  import Slugs

  datatype Issue = Issue(number: nat, url: string, title: string, body: string, closed: bool)

  datatype Task = Task(ref: string, title: string, description: Option<string>, priority: string, epic: string, status: string)

  // ----- what an issue says about its task

  function SkipDigits(s: string): (r: string)
    ensures |r| <= |s|
  {
    if s != "" && IsDigit(s[0]) then SkipDigits(s[1..]) else s
  }

  const SPRINT := "[Sprint "

  function WithoutSprint(title: string): string {
    if !(SPRINT <= title) then title else
    var number := title[|SPRINT|..];
    var rest := SkipDigits(number);
    if |rest| < |number| && rest != "" && rest[0] == ']' then SkipSpaces(rest[1..]) else title
  }

  /** stripSprintPrefix */
  function Title(issue: Issue): string {
    var t := WithoutSprint(issue.title);
    if |t| >= 10 && t[0] == '[' && IsShortId(t[1..9]) && t[9] == ']' then SkipSpaces(t[10..]) else t
  }

  const SYNCED := "Synced from GitHub Issue #"

  /** formatDescription */
  function Description(issue: Issue): string {
    var parts := [SYNCED + Decimal(issue.number), "URL: " + issue.url];
    var cleaned := if issue.body == "" then "" else Stripped(issue.body);
    Join(if cleaned == "" then parts else parts + ["", cleaned])
  }

  /** The key an epic is looked up and cached by. */
  function EpicKey(name: string): string {
    Slugs.ToLower(Trim(name))
  }

  /** The id of the epic an issue names; `find` is the database's answer, "" if it knows none. */
  function EpicOf(find: string -> string, issue: Issue): string {
    var key := EpicKey(Epic(issue.body));
    if Epic(issue.body) == "" || key == "" then "" else find(key)
  }

  /** "gh-52" */
  function Ref(number: nat): string {
    "gh-" + Decimal(number)
  }

  // ----- one issue

  /** Which calls succeed, and the id a new task would get. */
  datatype Answers = Answers(idLookup: bool, refLookup: bool, write: bool, view: bool, edit: bool, id: string)

  predicate IsUuid(id: string) {
    |id| >= 8 && IsShortId(id[..8])
  }

  datatype Store = Store(tasks: map<string, Task>, bodies: map<nat, string>, writes: seq<Write>)

  datatype Write = Nothing | Close(id: string) | Update(id: string) | Create(id: string)

  function ById(tasks: map<string, Task>, prefix: string): set<string> {
    set k | k in tasks && prefix <= k
  }

  function ByRef(tasks: map<string, Task>, ref: string): set<string> {
    set k | k in tasks && tasks[k].ref == ref
  }

  /** The tasks the lookups can answer; the database returns any one of them, and a failed lookup returns none. */
  function Answered(tasks: map<string, Task>, issue: Issue, a: Answers): set<string> {
    var id := TaskId(issue.body);
    var byId := if id.Some? && a.idLookup then ById(tasks, id.value) else {};
    if byId != {} then byId else if a.refLookup then ByRef(tasks, Ref(issue.number)) else {}
  }

  predicate Finds(tasks: map<string, Task>, issue: Issue, a: Answers, found: Option<string>) {
    var c := Answered(tasks, issue, a);
    if c == {} then found == None else found.Some? && found.value in c
  }

  /** The task brought in line with its issue; a field the issue is silent about is left alone. */
  function InLine(find: string -> string, task: Task, issue: Issue): Task {
    task.(title := Title(issue),
          priority := if Priority(issue.body) != "" then Priority(issue.body) else task.priority,
          epic := if EpicOf(find, issue) != "" then EpicOf(find, issue) else task.epic,
          description := Some(Description(issue)))
  }

  function NewTask(find: string -> string, issue: Issue): Task {
    InLine(find, Task(Ref(issue.number), "", None, "p3_medium", "", "approved"), issue)
  }

  predicate IsOver(task: Task) {
    task.status == "done" || task.status == "cancelled"
  }

  /** The task already says what its issue says. */
  predicate InSync(find: string -> string, task: Task, issue: Issue) {
    if issue.closed then IsOver(task) else InLine(find, task, issue) == task
  }

  /** The write an issue calls for, given the task that was found for it. */
  function Due(find: string -> string, tasks: map<string, Task>, issue: Issue, found: Option<string>, id: string): Write
    requires found.Some? ==> found.value in tasks
  {
    if found.None? then if issue.closed then Nothing else Create(id)
    else if InSync(find, tasks[found.value], issue) then Nothing
    else if issue.closed then Close(found.value)
    else Update(found.value)
  }

  function Written(find: string -> string, tasks: map<string, Task>, issue: Issue, w: Write): map<string, Task>
    requires w.Close? || w.Update? ==> w.id in tasks
  {
    match w
    case Nothing => tasks
    case Close(id) => tasks[id := tasks[id].(status := "done")]
    case Update(id) => tasks[id := InLine(find, tasks[id], issue)]
    case Create(id) => tasks[id := NewTask(find, issue)]
  }

  /** stampTaskID: only into a body that, when read again, still names no task. */
  function BodiesStamped(bodies: map<nat, string>, number: nat, id: string, a: Answers): map<nat, string>
    requires |id| >= 8
  {
    if a.view && a.edit && number in bodies && TaskId(bodies[number]) == None
    then bodies[number := Stamped(id[..8], bodies[number])] else bodies
  }

  function After(find: string -> string, s: Store, issue: Issue, a: Answers, found: Option<string>): Store
    requires Finds(s.tasks, issue, a, found) && IsUuid(a.id)
  {
    var w := Due(find, s.tasks, issue, found, a.id);
    Store(if a.write then Written(find, s.tasks, issue, w) else s.tasks,
          if w.Create? && a.write && TaskId(issue.body) == None then BodiesStamped(s.bodies, issue.number, a.id, a) else s.bodies,
          if w.Nothing? then s.writes else s.writes + [w])
  }

  // ----- the command

  class Sync {
    const findEpic: string -> string
    var tasks: map<string, Task>
    var epics: map<string, string>
    var bodies: map<nat, string>
    /** The task writes attempted, in order. */
    var writes: seq<Write>

    constructor (findEpic: string -> string, tasks: map<string, Task>, bodies: map<nat, string>)
      ensures Valid() && Now() == Store(tasks, bodies, []) && this.findEpic == findEpic
    {
      this.findEpic, this.tasks, this.bodies := findEpic, tasks, bodies;
      epics, writes := map[], [];
    }

    /** What the cache holds is what the database answers. */
    ghost predicate Valid()
      reads this
    {
      forall key :: key in epics ==> epics[key] == findEpic(key)
    }

    function Now(): Store
      reads this
    {
      Store(tasks, bodies, writes)
    }

    /** epicCache.resolve */
    method Resolve(name: string) returns (epic: string)
      requires Valid()
      modifies this`epics
      ensures Valid()
      ensures epic == if EpicKey(name) == "" then "" else findEpic(EpicKey(name))
      ensures old(epics.Keys) <= epics.Keys
    {
      var key := EpicKey(name);
      if key == "" {
        return "";
      }
      if key in epics {
        return epics[key];
      }
      epic := findEpic(key);
      epics := epics[key := epic];
    }

    /** The two lookups: by the Task ID in the body, then by the issue's reference. */
    method FindTask(issue: Issue, a: Answers) returns (found: Option<string>)
      ensures Finds(tasks, issue, a, found)
    {
      hide TaskId, Decimal;
      var id := TaskId(issue.body);
      if id.Some? && a.idLookup {
        var byId := ById(tasks, id.value);
        if byId != {} {
          var k :| k in byId;
          return Some(k);
        }
      }
      if a.refLookup {
        var byRef := ByRef(tasks, Ref(issue.number));
        if byRef != {} {
          var k :| k in byRef;
          return Some(k);
        }
      }
      return None;
    }

    /** The comparison in syncOneIssue: the task with the fields that differ replaced. */
    method Changes(task: Task, issue: Issue, epic: string) returns (opts: Task, needsUpdate: bool)
      requires epic == EpicOf(findEpic, issue)
      ensures opts == InLine(findEpic, task, issue) && (needsUpdate <==> opts != task)
    {
      hide Description, Title, Priority, Epic, EpicKey;
      var title := Title(issue);
      var priority := Priority(issue.body);
      opts, needsUpdate := task, false;
      if priority != "" && priority != task.priority {
        opts, needsUpdate := opts.(priority := priority), true;
      }
      if title != task.title {
        opts, needsUpdate := opts.(title := title), true;
      }
      if epic != "" && task.epic != epic {
        opts, needsUpdate := opts.(epic := epic), true;
      }
      var description := Description(issue);
      DescriptionIsSynced(issue);
      if task.description.Some? {
        if SYNCED <= task.description.value {
          if task.description.value != description {
            opts, needsUpdate := opts.(description := Some(description)), true;
          }
        } else {
          opts, needsUpdate := opts.(description := Some(description)), true;
        }
      } else {
        opts, needsUpdate := opts.(description := Some(description)), true;
      }
    }

    /** syncOneIssue */
    method SyncOne(issue: Issue, dryRun: bool, a: Answers) returns (found: Option<string>)
      requires Valid() && IsUuid(a.id)
      modifies this
      ensures Valid()
      ensures Finds(old(tasks), issue, a, found)
      ensures Now() == if dryRun then old(Now()) else After(findEpic, old(Now()), issue, a, found)
    {
      hide Description, Title, TaskId, Priority, Epic, EpicKey, Answered, Stamped, Ref;
      var title := Title(issue);
      var priority := Priority(issue.body);
      found := FindTask(issue, a);
      assert found.Some? ==> found.value in tasks by { FoundIsThere(tasks, issue, a, found); }
      if issue.closed {
        if found.Some? && tasks[found.value].status != "done" && tasks[found.value].status != "cancelled" {
          if !dryRun {
            writes := writes + [Close(found.value)];
            if a.write {
              tasks := tasks[found.value := tasks[found.value].(status := "done")];
            }
          }
        }
        return;
      }
      var epic := "";
      if Epic(issue.body) != "" {
        epic := Resolve(Epic(issue.body));
      }
      if found.Some? {
        var opts, needsUpdate := Changes(tasks[found.value], issue, epic);
        if !needsUpdate {
          return;
        }
        if !dryRun {
          writes := writes + [Update(found.value)];
          if a.write {
            tasks := tasks[found.value := opts];
          }
        }
        return;
      }
      if dryRun {
        return;
      }
      var task := Task(Ref(issue.number), title, Some(Description(issue)), if priority == "" then "p3_medium" else priority, epic, "approved");
      writes := writes + [Create(a.id)];
      if !a.write {
        return;
      }
      tasks := tasks[a.id := task];
      if TaskId(issue.body) == None {
        StampTaskId(issue.number, a.id, a);
      }
    }

    /** stampTaskID */
    method StampTaskId(number: nat, id: string, a: Answers)
      requires |id| >= 8
      modifies this`bodies
      ensures bodies == BodiesStamped(old(bodies), number, id, a)
    {
      hide TaskId, Stamped;
      if !a.view || number !in bodies {
        return;
      }
      if TaskId(bodies[number]).Some? {
        return;
      }
      if a.edit {
        bodies := bodies[number := Stamped(id[..8], bodies[number])];
      }
    }

    /** The loop of runGitHubSync; `states` and `founds` say what happened issue by issue. */
    method Run(issues: seq<Issue>, dryRun: bool, answers: seq<Answers>)
      returns (ghost states: seq<Store>, ghost founds: seq<Option<string>>)
      requires Valid() && |answers| == |issues| && forall i :: 0 <= i < |answers| ==> IsUuid(answers[i].id)
      modifies this
      ensures Valid()
      ensures dryRun ==> Now() == old(Now())
      ensures !dryRun ==> Pass(findEpic, states, issues, answers, founds) && states[0] == old(Now()) && states[|issues|] == Now()
    {
      hide After, Finds, IsUuid;
      states, founds := [Now()], [];
      for i := 0 to |issues|
        invariant Valid()
        invariant dryRun ==> Now() == old(Now())
        invariant !dryRun ==>
          Pass(findEpic, states, issues[..i], answers[..i], founds) && states[0] == old(Now()) && states[i] == Now()
      {
        var found := SyncOne(issues[i], dryRun, answers[i]);
        states, founds := states + [Now()], founds + [found];
      }
      assert issues[..|issues|] == issues && answers[..|issues|] == answers;
    }
  }

  lemma DescriptionIsSynced(issue: Issue)
    ensures SYNCED <= Description(issue)
  {
    hide Stripped, Decimal;
  }

  lemma FoundIsThere(tasks: map<string, Task>, issue: Issue, a: Answers, found: Option<string>)
    requires Finds(tasks, issue, a, found)
    ensures found.Some? ==> found.value in tasks
  {
    hide TaskId, Ref;
  }

  /** One pass over the issues. */
  ghost predicate Pass(find: string -> string, states: seq<Store>, issues: seq<Issue>, answers: seq<Answers>, founds: seq<Option<string>>) {
    && |answers| == |issues| == |founds| && |states| == |issues| + 1
    && forall i :: 0 <= i < |issues| ==>
      && IsUuid(answers[i].id)
      && Finds(states[i].tasks, issues[i], answers[i], founds[i])
      && states[i + 1] == After(find, states[i], issues[i], answers[i], founds[i])
  }
}
