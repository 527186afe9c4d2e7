/**
 * `lw issue reconcile`: one tick over the tasks that ran out of attempts, the tasks that ended
 * after delivery, and the tasks in review. Every act on GitHub and the queue goes to a trace.
 */
module Reconcile {
  import opened Text
  import opened PullRequests
  import opened Glob
  import opened MergeGate
  import IssueQueue

  const ORPHAN_WINDOW_MS := 24 * 3600 * 1000

  const MISSING_PR_GRACE_MS := 10 * 60 * 1000

  const PR_TAG := "Opened by the issue loop"

  /** A task as the queue lists it. */
  datatype Listed = Listed(id: string, issue: nat, version: nat, updatedAtMs: int, nextEligibleMs: int)

  /** What the calls made for one task would answer. */
  datatype Answers = Answers(
    find: Result<Option<PullRequest>>, evidence: Reads,
    claimed: bool, moved: bool, withdrawn: bool)

  /** What the loop does to the world. */
  datatype Act =
    | Arm(number: nat, head: string)
    | Ready(number: nat)
    | Move(task: string, verdict: Decision)
    | WithdrawTask(task: string)
    | HandOff(issue: nat)

  type Entry = (Listed, Answers)

  type Cache = Option<Result<seq<string>>>

  /** The lists one tick reads, and whether the review stage has a role. */
  datatype Tick = Tick(exhausted: Result<seq<Entry>>, ended: Result<seq<Entry>>, inReview: Result<seq<Entry>>, hasRole: bool)

  // ----- what each task makes the loop do

  ghost predicate Free(repo: string, pr: PullRequest, evidence: Reads, cache: Cache) {
    MayMerge(repo, pr, evidence, PathsInUse(cache, evidence.policy))
  }

  function CacheAfter(repo: string, pr: PullRequest, evidence: Reads, cache: Cache): Cache {
    if ReachesPolicy(repo, pr, evidence) then Some(PathsInUse(cache, evidence.policy)) else cache
  }

  function HandOffActs(issue: nat): seq<Act> {
    if issue > 0 then [HandOff(issue)] else []
  }

  predicate IsExhausted(task: Listed, nowMs: int) {
    task.nextEligibleMs > 0 && task.nextEligibleMs - nowMs >= IssueQueue.EXHAUSTED_HORIZON_MS
  }

  function ExhaustedActs(e: Entry, nowMs: int, dryRun: bool): seq<Act> {
    if dryRun || !IsExhausted(e.0, nowMs) then []
    else if !e.1.withdrawn then [WithdrawTask(e.0.id)]
    else [WithdrawTask(e.0.id)] + HandOffActs(e.0.issue)
  }

  /** A task that ended recently and left an open pull request of the delivery hook, green but for being a draft. */
  predicate IsOrphan(e: Entry, nowMs: int) {
    && e.0.updatedAtMs > 0 && nowMs - e.0.updatedAtMs <= ORPHAN_WINDOW_MS
    && e.1.find.Ok? && e.1.find.value.Some?
    && var pr := e.1.find.value.value;
       pr.state == Open && Contains(pr.body, PR_TAG) && Decide(pr.(draft := false), 0, 0) == AutoMerge
  }

  /** The merge call itself refuses an unknown head. */
  function ArmActs(pr: PullRequest): seq<Act> {
    if pr.head == "" then [] else [Arm(pr.number, pr.head)]
  }

  ghost function OrphanActs(repo: string, e: Entry, nowMs: int, dryRun: bool, cache: Cache): seq<Act> {
    if dryRun || !IsOrphan(e, nowMs) then [] else
      var pr := e.1.find.value.value;
      if pr.draft then [Ready(pr.number)]
      else if Free(repo, pr, e.1.evidence, cache) then ArmActs(pr) else []
  }

  function OrphanCache(repo: string, e: Entry, nowMs: int, cache: Cache): Cache {
    if IsOrphan(e, nowMs) && !e.1.find.value.value.draft then CacheAfter(repo, e.1.find.value.value, e.1.evidence, cache) else cache
  }

  /** The decision on a task in review, before the gate. */
  function ReviewDecisionOn(e: Entry, maxRounds: nat, nowMs: int): Decision {
    if e.1.find.Err? then StillPending
    else if e.1.find.value == None then
      if e.0.updatedAtMs <= 0 || nowMs - e.0.updatedAtMs < MISSING_PR_GRACE_MS then WaitingForPR
      else DecideMissing(e.0.version / 2, maxRounds)
    else Decide(e.1.find.value.value, e.0.version / 2, maxRounds)
  }

  ghost function ReviewActs(repo: string, e: Entry, maxRounds: nat, nowMs: int, dryRun: bool, cache: Cache): seq<Act> {
    var decision := ReviewDecisionOn(e, maxRounds, nowMs);
    if dryRun || e.1.find.Err? then [] else
    match decision
    case AutoMerge =>
      if e.1.find.value.Some? && Free(repo, e.1.find.value.value, e.1.evidence, cache) then ArmActs(e.1.find.value.value) else []
    case MarkReady => if e.1.find.value.Some? then [Ready(e.1.find.value.value.number)] else []
    case Approve => MoveActs(e, decision)
    case Reject => MoveActs(e, decision)
    case Drop => MoveActs(e, decision)
    case _ => []
  }

  /** The claim, the transition, and the hand-off when the task is given up. */
  function MoveActs(e: Entry, verdict: Decision): seq<Act> {
    if !e.1.claimed then []
    else if !e.1.moved then [Move(e.0.id, verdict)]
    else [Move(e.0.id, verdict)] + (if verdict == Drop then HandOffActs(e.0.issue) else [])
  }

  function ReviewCache(repo: string, e: Entry, maxRounds: nat, nowMs: int, cache: Cache): Cache {
    if e.1.find.Ok? && e.1.find.value.Some? && ReviewDecisionOn(e, maxRounds, nowMs) == AutoMerge
    then CacheAfter(repo, e.1.find.value.value, e.1.evidence, cache) else cache
  }

  // ----- whole lists and whole ticks

  function ExhaustedAll(entries: seq<Entry>, nowMs: int, dryRun: bool): seq<Act> {
    if entries == [] then [] else ExhaustedActs(entries[0], nowMs, dryRun) + ExhaustedAll(entries[1..], nowMs, dryRun)
  }

  ghost function OrphanAll(repo: string, entries: seq<Entry>, nowMs: int, dryRun: bool, cache: Cache): (seq<Act>, Cache) {
    if entries == [] then ([], cache) else
      var rest := OrphanAll(repo, entries[1..], nowMs, dryRun, OrphanCache(repo, entries[0], nowMs, cache));
      (OrphanActs(repo, entries[0], nowMs, dryRun, cache) + rest.0, rest.1)
  }

  ghost function ReviewAll(repo: string, entries: seq<Entry>, maxRounds: nat, nowMs: int, dryRun: bool, cache: Cache): (seq<Act>, Cache) {
    if entries == [] then ([], cache) else
      var rest := ReviewAll(repo, entries[1..], maxRounds, nowMs, dryRun, ReviewCache(repo, entries[0], maxRounds, nowMs, cache));
      (ReviewActs(repo, entries[0], maxRounds, nowMs, dryRun, cache) + rest.0, rest.1)
  }

  /** Everything one tick does; a list that cannot be read ends it. */
  ghost function TickActs(repo: string, tick: Tick, maxRounds: nat, nowMs: int, dryRun: bool): seq<Act> {
    if tick.exhausted.Err? then [] else
      var first := ExhaustedAll(tick.exhausted.value, nowMs, dryRun);
      if tick.ended.Err? then first else
        var (orphans, cache) := OrphanAll(repo, tick.ended.value, nowMs, dryRun, None);
        if tick.inReview.Err? || !tick.hasRole then first + orphans
        else first + orphans + ReviewAll(repo, tick.inReview.value, maxRounds, nowMs, dryRun, cache).0
  }

  // ----- the handlers

  class Host {
    var trace: seq<Act>

    /** reconcileExhaustedTasks */
    method ReconcileExhausted(entries: seq<Entry>, nowMs: int, dryRun: bool)
      modifies this
      ensures trace == old(trace) + ExhaustedAll(entries, nowMs, dryRun)
    {
      hide ExhaustedActs;
      for i := 0 to |entries|
        invariant trace + ExhaustedAll(entries[i..], nowMs, dryRun) == old(trace) + ExhaustedAll(entries, nowMs, dryRun)
      {
        assert entries[i..][1..] == entries[i + 1..];
        WithdrawExhausted(entries[i], nowMs, dryRun);
      }
    }

    method WithdrawExhausted(e: Entry, nowMs: int, dryRun: bool)
      modifies this
      ensures trace == old(trace) + ExhaustedActs(e, nowMs, dryRun)
    {
      if !IsExhausted(e.0, nowMs) || dryRun {
        return;
      }
      trace := trace + [WithdrawTask(e.0.id)];
      if e.1.withdrawn {
        HandOffToOperator(e.0.issue);
      }
    }

    /** handOffToOperator: the comment and the needs-operator label, when the issue is known. */
    method HandOffToOperator(issue: nat)
      modifies this
      ensures trace == old(trace) + HandOffActs(issue)
    {
      if issue > 0 {
        trace := trace + [HandOff(issue)];
      }
    }

    /** reconcileOrphanedPullRequests */
    method ReconcileOrphaned(gate: Gate, repo: string, entries: seq<Entry>, nowMs: int, dryRun: bool)
      requires gate.Valid()
      modifies this, gate
      ensures gate.Valid()
      ensures trace == old(trace) + OrphanAll(repo, entries, nowMs, dryRun, old(gate.Cached())).0
      ensures gate.Cached() == OrphanAll(repo, entries, nowMs, dryRun, old(gate.Cached())).1
    {
      hide OrphanActs, OrphanCache;
      for i := 0 to |entries|
        invariant gate.Valid()
        invariant trace + OrphanAll(repo, entries[i..], nowMs, dryRun, gate.Cached()).0
               == old(trace) + OrphanAll(repo, entries, nowMs, dryRun, old(gate.Cached())).0
        invariant OrphanAll(repo, entries[i..], nowMs, dryRun, gate.Cached()).1
               == OrphanAll(repo, entries, nowMs, dryRun, old(gate.Cached())).1
      {
        assert entries[i..][1..] == entries[i + 1..];
        ReconcileOrphan(gate, repo, entries[i], nowMs, dryRun);
      }
    }

    method ReconcileOrphan(gate: Gate, repo: string, e: Entry, nowMs: int, dryRun: bool)
      requires gate.Valid()
      modifies this, gate
      ensures gate.Valid()
      ensures trace == old(trace) + OrphanActs(repo, e, nowMs, dryRun, old(gate.Cached()))
      ensures gate.Cached() == OrphanCache(repo, e, nowMs, old(gate.Cached()))
    {
      hide Decide, Contains, MayMerge;
      var task, answers := e.0, e.1;
      if task.updatedAtMs <= 0 || nowMs - task.updatedAtMs > ORPHAN_WINDOW_MS {
        return;
      }
      if answers.find.Err? || answers.find.value == None {
        return;
      }
      var pr := answers.find.value.value;
      if pr.state != Open || !Contains(pr.body, PR_TAG) {
        return;
      }
      var judged := pr.(draft := false);
      if Decide(judged, 0, 0) != AutoMerge {
        return;
      }
      var held := false;
      if !pr.draft {
        var why := gate.HoldMerge(repo, pr, answers.evidence);
        held := why.Some?;
      }
      if dryRun || held {
        return;
      }
      if pr.draft {
        trace := trace + [Ready(pr.number)];
        return;
      }
      ArmMerge(pr);
    }

    /** armPullRequestMerge, which refuses to merge without the head it was judged at. */
    method ArmMerge(pr: PullRequest)
      modifies this
      ensures trace == old(trace) + ArmActs(pr)
    {
      if pr.head != "" {
        trace := trace + [Arm(pr.number, pr.head)];
      }
    }

    /** reconcileTask */
    method ReconcileTask(gate: Gate, repo: string, e: Entry, maxRounds: nat, nowMs: int, dryRun: bool)
      requires gate.Valid()
      modifies this, gate
      ensures gate.Valid()
      ensures trace == old(trace) + ReviewActs(repo, e, maxRounds, nowMs, dryRun, old(gate.Cached()))
      ensures gate.Cached() == ReviewCache(repo, e, maxRounds, nowMs, old(gate.Cached()))
    {
      hide MayMerge;
      var task, answers := e.0, e.1;
      var round := task.version / 2;
      if answers.find.Err? {
        return;
      }
      var found := answers.find.value;
      var decision;
      if found == None {
        if task.updatedAtMs <= 0 || nowMs - task.updatedAtMs < MISSING_PR_GRACE_MS {
          return;
        }
        decision := DecideMissing(round, maxRounds);
      } else {
        decision := Decide(found.value, round, maxRounds);
      }
      if decision == AutoMerge {
        var why := gate.HoldMerge(repo, found.value, answers.evidence);
        if why.Some? {
          decision := Held;
        }
      }
      if dryRun {
        return;
      }
      match decision {
        case StillPending =>
        case WaitingForPR =>
        case Held =>
        case MarkReady => trace := trace + [Ready(found.value.number)];
        case AutoMerge => ArmMerge(found.value);
        case Approve => MoveTask(e, decision);
        case Reject => MoveTask(e, decision);
        case Drop => MoveTask(e, decision);
      }
    }

    /** moveTask */
    method MoveTask(e: Entry, verdict: Decision)
      modifies this
      ensures trace == old(trace) + MoveActs(e, verdict)
    {
      if !e.1.claimed {
        return;
      }
      trace := trace + [Move(e.0.id, verdict)];
      if !e.1.moved {
        return;
      }
      if verdict == Drop {
        HandOffToOperator(e.0.issue);
      }
    }

    /** issueReconcileHandler, with a fresh gate for the run. */
    method RunTick(repo: string, tick: Tick, maxRounds: nat, nowMs: int, dryRun: bool)
      modifies this
      ensures trace == old(trace) + TickActs(repo, tick, maxRounds, nowMs, dryRun)
    {
      hide OrphanAll, ReviewAll, ExhaustedAll;
      var gate := new Gate();
      if tick.exhausted.Err? {
        return;
      }
      ReconcileExhausted(tick.exhausted.value, nowMs, dryRun);
      if tick.ended.Err? {
        return;
      }
      ReconcileOrphaned(gate, repo, tick.ended.value, nowMs, dryRun);
      if tick.inReview.Err? || !tick.hasRole {
        return;
      }
      ReconcileReviews(gate, repo, tick.inReview.value, maxRounds, nowMs, dryRun);
    }

    /** The loop over the tasks in review. */
    method ReconcileReviews(gate: Gate, repo: string, entries: seq<Entry>, maxRounds: nat, nowMs: int, dryRun: bool)
      requires gate.Valid()
      modifies this, gate
      ensures gate.Valid()
      ensures trace == old(trace) + ReviewAll(repo, entries, maxRounds, nowMs, dryRun, old(gate.Cached())).0
    {
      hide ReviewActs, ReviewCache;
      for i := 0 to |entries|
        invariant gate.Valid()
        invariant trace + ReviewAll(repo, entries[i..], maxRounds, nowMs, dryRun, gate.Cached()).0
               == old(trace) + ReviewAll(repo, entries, maxRounds, nowMs, dryRun, old(gate.Cached())).0
      {
        assert entries[i..][1..] == entries[i + 1..];
        ReconcileTask(gate, repo, entries[i], maxRounds, nowMs, dryRun);
      }
    }
  }

  // ----- merge safety

  /** The policy file was read for some task of the tick, and these are the paths it named. */
  ghost predicate ReadInTick(entries: seq<Entry>, paths: Result<seq<string>>) {
    exists i :: 0 <= i < |entries| && paths == OperatorPaths(entries[i].1.evidence.policy)
  }

  ghost predicate CacheRead(entries: seq<Entry>, cache: Cache) {
    cache.Some? ==> ReadInTick(entries, cache.value)
  }

  /**
   * What justifies an act: a merge is armed only for the pull request found for some task, at the
   * head it was judged at, green, and let through by the gate on reads that all succeeded; a draft
   * is only marked ready.
   */
  ghost predicate Justified(repo: string, act: Act, entries: seq<Entry>) {
    && (act.Arm? ==> exists i :: 0 <= i < |entries| && JustifiesArm(repo, act, entries[i], entries))
    && (act.Ready? ==> exists i :: 0 <= i < |entries| && JustifiesReady(act, entries[i]))
  }

  ghost predicate JustifiesArm(repo: string, act: Act, e: Entry, entries: seq<Entry>)
    requires act.Arm?
  {
    && e.1.find.Ok? && e.1.find.value.Some?
    && var pr := e.1.find.value.value;
    && act.number == pr.number && act.head == pr.head && pr.head != ""
    && Green(pr)
    && exists paths :: ReadInTick(entries, paths) && MayMerge(repo, pr, e.1.evidence, paths)
  }

  ghost predicate JustifiesReady(act: Act, e: Entry)
    requires act.Ready?
  {
    && e.1.find.Ok? && e.1.find.value.Some?
    && var pr := e.1.find.value.value;
    && act.number == pr.number && pr.state == Open && pr.draft && !pr.dirty
  }

  ghost predicate AllJustified(repo: string, acts: seq<Act>, entries: seq<Entry>) {
    forall a :: a in acts ==> Justified(repo, a, entries)
  }

  /** An entry of the tick, whichever list it is on. */
  lemma ArmIsJustified(repo: string, e: Entry, entries: seq<Entry>, cache: Cache)
    requires e in entries && CacheRead(entries, cache)
    requires e.1.find.Ok? && e.1.find.value.Some? && Green(e.1.find.value.value) && Free(repo, e.1.find.value.value, e.1.evidence, cache)
    ensures AllJustified(repo, ArmActs(e.1.find.value.value), entries)
  {
    hide MayMerge, Green, OperatorPaths;
    var paths := PathsInUse(cache, e.1.evidence.policy);
    var i :| 0 <= i < |entries| && entries[i] == e;
    assert ReadInTick(entries, paths);
    forall a | a in ArmActs(e.1.find.value.value) ensures Justified(repo, a, entries) {
      assert JustifiesArm(repo, a, entries[i], entries);
    }
  }

  lemma OrphanIsJustified(repo: string, e: Entry, nowMs: int, dryRun: bool, cache: Cache, entries: seq<Entry>)
    requires e in entries && CacheRead(entries, cache)
    ensures AllJustified(repo, OrphanActs(repo, e, nowMs, dryRun, cache), entries)
    ensures CacheRead(entries, OrphanCache(repo, e, nowMs, cache))
  {
    hide MayMerge, OperatorPaths, Contains, ReachesPolicy, Free;
    if IsOrphan(e, nowMs) {
      var pr := e.1.find.value.value;
      CacheStaysRead(repo, e, cache, entries);
      MergesOnlyGreen(pr.(draft := false), 0, 0);
      if pr.draft {
        var i :| 0 <= i < |entries| && entries[i] == e;
        assert JustifiesReady(Ready(pr.number), entries[i]);
      } else {
        assert pr.(draft := false) == pr;
        if Free(repo, pr, e.1.evidence, cache) {
          ArmIsJustified(repo, e, entries, cache);
        }
      }
    }
  }

  lemma CacheStaysRead(repo: string, e: Entry, cache: Cache, entries: seq<Entry>)
    requires e in entries && CacheRead(entries, cache) && e.1.find.Ok? && e.1.find.value.Some?
    ensures CacheRead(entries, CacheAfter(repo, e.1.find.value.value, e.1.evidence, cache))
  {
    hide OperatorPaths, ReachesPolicy;
    var i :| 0 <= i < |entries| && entries[i] == e;
  }

  lemma ReviewIsJustified(repo: string, e: Entry, maxRounds: nat, nowMs: int, dryRun: bool, cache: Cache, entries: seq<Entry>)
    requires e in entries && CacheRead(entries, cache)
    ensures AllJustified(repo, ReviewActs(repo, e, maxRounds, nowMs, dryRun, cache), entries)
    ensures CacheRead(entries, ReviewCache(repo, e, maxRounds, nowMs, cache))
  {
    hide MayMerge, OperatorPaths, ReachesPolicy, Free, Green, Decide;
    if e.1.find.Ok? && e.1.find.value.Some? {
      var pr := e.1.find.value.value;
      var round := e.0.version / 2;
      CacheStaysRead(repo, e, cache, entries);
      MergesOnlyGreen(pr, round, maxRounds);
      if Decide(pr, round, maxRounds) == AutoMerge && Free(repo, pr, e.1.evidence, cache) {
        ArmIsJustified(repo, e, entries, cache);
      } else if Decide(pr, round, maxRounds) == MarkReady {
        ReadyMeansDraft(pr, round, maxRounds);
        var i :| 0 <= i < |entries| && entries[i] == e;
        assert JustifiesReady(Ready(pr.number), entries[i]);
      }
    }
  }

  lemma ReadyMeansDraft(pr: PullRequest, round: nat, maxRounds: nat)
    ensures Decide(pr, round, maxRounds) == MarkReady <==> pr.state == Open && pr.draft && !pr.dirty
  {
  }

  lemma {:induction false} OrphansAreJustified(repo: string, todo: seq<Entry>, nowMs: int, dryRun: bool, cache: Cache, entries: seq<Entry>)
    requires (forall e :: e in todo ==> e in entries) && CacheRead(entries, cache)
    ensures AllJustified(repo, OrphanAll(repo, todo, nowMs, dryRun, cache).0, entries)
    ensures CacheRead(entries, OrphanAll(repo, todo, nowMs, dryRun, cache).1)
  {
    hide OrphanActs, OrphanCache, Justified, CacheRead;
    if todo != [] {
      OrphanIsJustified(repo, todo[0], nowMs, dryRun, cache, entries);
      OrphansAreJustified(repo, todo[1..], nowMs, dryRun, OrphanCache(repo, todo[0], nowMs, cache), entries);
    }
  }

  lemma {:induction false} ReviewsAreJustified(repo: string, todo: seq<Entry>, maxRounds: nat, nowMs: int, dryRun: bool, cache: Cache, entries: seq<Entry>)
    requires (forall e :: e in todo ==> e in entries) && CacheRead(entries, cache)
    ensures AllJustified(repo, ReviewAll(repo, todo, maxRounds, nowMs, dryRun, cache).0, entries)
  {
    hide ReviewActs, ReviewCache, Justified, CacheRead;
    if todo != [] {
      ReviewIsJustified(repo, todo[0], maxRounds, nowMs, dryRun, cache, entries);
      ReviewsAreJustified(repo, todo[1..], maxRounds, nowMs, dryRun, ReviewCache(repo, todo[0], maxRounds, nowMs, cache), entries);
    }
  }

  lemma {:induction false} WithdrawalsAreNoMerges(repo: string, todo: seq<Entry>, nowMs: int, dryRun: bool, entries: seq<Entry>)
    ensures AllJustified(repo, ExhaustedAll(todo, nowMs, dryRun), entries)
  {
    hide IsExhausted;
    if todo != [] {
      WithdrawalsAreNoMerges(repo, todo[1..], nowMs, dryRun, entries);
    }
  }

  /** The tasks the gate may be asked about in one tick. */
  function Judged(tick: Tick): seq<Entry> {
    (if tick.ended.Ok? then tick.ended.value else []) + (if tick.inReview.Ok? then tick.inReview.value else [])
  }

  /** Every act of every tick is justified by what was read in that tick. */
  lemma MergesAreSafe(repo: string, tick: Tick, maxRounds: nat, nowMs: int, dryRun: bool)
    ensures AllJustified(repo, TickActs(repo, tick, maxRounds, nowMs, dryRun), Judged(tick))
  {
    hide Justified, CacheRead, OrphanAll, ReviewAll, ExhaustedAll;
    var entries := Judged(tick);
    NothingReadYet(entries);
    if tick.exhausted.Ok? {
      WithdrawalsAreNoMerges(repo, tick.exhausted.value, nowMs, dryRun, entries);
      if tick.ended.Ok? {
        OrphansAreJustified(repo, tick.ended.value, nowMs, dryRun, None, entries);
        if tick.inReview.Ok? {
          var cache := OrphanAll(repo, tick.ended.value, nowMs, dryRun, None).1;
          ReviewsAreJustified(repo, tick.inReview.value, maxRounds, nowMs, dryRun, cache, entries);
        }
      }
    }
  }

  lemma NothingReadYet(entries: seq<Entry>)
    ensures CacheRead(entries, None)
  {
  }

  /** All ticks of a run, each with a fresh gate. */
  ghost function RunActs(repo: string, ticks: seq<(Tick, nat, int, bool)>): seq<Act> {
    if ticks == [] then []
    else TickActs(repo, ticks[0].0, ticks[0].1, ticks[0].2, ticks[0].3) + RunActs(repo, ticks[1..])
  }

  /** Over any number of ticks, whenever a merge is armed some tick's evidence justifies it; lightwave-core is never armed. */
  lemma {:induction false} EveryMergeOfARunIsSafe(repo: string, ticks: seq<(Tick, nat, int, bool)>, act: Act)
    requires act in RunActs(repo, ticks) && act.Arm?
    ensures repo != CORE_REPO
    ensures exists t :: 0 <= t < |ticks| && Justified(repo, act, Judged(ticks[t].0))
  {
    hide Green, TickActs;
    var (tick, maxRounds, nowMs, dryRun) := ticks[0];
    if act in TickActs(repo, tick, maxRounds, nowMs, dryRun) {
      MergesAreSafe(repo, tick, maxRounds, nowMs, dryRun);
      assert Justified(repo, act, Judged(ticks[0].0));
    } else {
      EveryMergeOfARunIsSafe(repo, ticks[1..], act);
      var t :| 0 <= t < |ticks[1..]| && Justified(repo, act, Judged(ticks[1..][t].0));
      assert ticks[1..][t] == ticks[t + 1];
    }
  }

  /** Whenever a merge is armed, no file of it matches an ASCII operator pattern, on file names without line breaks. */
  lemma NoMergeTouchesOperatorPaths(repo: string, ticks: seq<(Tick, nat, int, bool)>, act: Act)
    returns (t: nat, e: Entry, paths: Result<seq<string>>)
    requires act in RunActs(repo, ticks) && act.Arm?
    ensures t < |ticks| && e in Judged(ticks[t].0) && JustifiesArm(repo, act, e, Judged(ticks[t].0))
    ensures ReadInTick(Judged(ticks[t].0), paths) && paths.Ok? && paths.value != [] && e.1.evidence.files.Ok?
    ensures forall f, p :: f in e.1.evidence.files.value && p in paths.value && OneLine(f) && IsAscii(p) ==> !GlobMatches(p, f, true)
  {
    hide Green, TickActs, ReadInTick, GlobMatches, Accepts, IsAscii;
    EveryMergeOfARunIsSafe(repo, ticks, act);
    t :| 0 <= t < |ticks| && Justified(repo, act, Judged(ticks[t].0));
    var entries := Judged(ticks[t].0);
    var i :| 0 <= i < |entries| && JustifiesArm(repo, act, entries[i], entries);
    e := entries[i];
    var pr := e.1.find.value.value;
    paths :| ReadInTick(entries, paths) && MayMerge(repo, pr, e.1.evidence, paths);
    forall f, p | f in e.1.evidence.files.value && p in paths.value && OneLine(f) && IsAscii(p) ensures !GlobMatches(p, f, true) {
      MergesSpareOperatorPaths(repo, pr, e.1.evidence, paths, f, p);
    }
  }

  /** A dry run acts on nothing. */
  lemma {:induction false} DryRunActsOnNothing(repo: string, tick: Tick, maxRounds: nat, nowMs: int)
    ensures TickActs(repo, tick, maxRounds, nowMs, true) == []
  {
    if tick.exhausted.Ok? {
      DryExhausted(tick.exhausted.value, nowMs);
      if tick.ended.Ok? {
        DryOrphans(repo, tick.ended.value, nowMs, None);
        if tick.inReview.Ok? {
          DryReviews(repo, tick.inReview.value, maxRounds, nowMs, OrphanAll(repo, tick.ended.value, nowMs, true, None).1);
        }
      }
    }
  }

  lemma {:induction false} DryExhausted(entries: seq<Entry>, nowMs: int)
    ensures ExhaustedAll(entries, nowMs, true) == []
  {
    if entries != [] { DryExhausted(entries[1..], nowMs); }
  }

  lemma {:induction false} DryOrphans(repo: string, entries: seq<Entry>, nowMs: int, cache: Cache)
    ensures OrphanAll(repo, entries, nowMs, true, cache).0 == []
  {
    hide IsOrphan, OrphanCache;
    if entries != [] { DryOrphans(repo, entries[1..], nowMs, OrphanCache(repo, entries[0], nowMs, cache)); }
  }

  lemma {:induction false} DryReviews(repo: string, entries: seq<Entry>, maxRounds: nat, nowMs: int, cache: Cache)
    ensures ReviewAll(repo, entries, maxRounds, nowMs, true, cache).0 == []
  {
    hide ReviewDecisionOn, ReviewCache;
    if entries != [] { DryReviews(repo, entries[1..], maxRounds, nowMs, ReviewCache(repo, entries[0], maxRounds, nowMs, cache)); }
  }
}
