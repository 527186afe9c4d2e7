/** What one tick of `lw issue reconcile` does, act by act, told by what it read. */
module ReconcileActs {
  import opened Text
  import opened PullRequests
  import opened MergeGate
  import Glob
  import opened Reconcile

  // ----- what the reads call for

  /** The pull request found for a task. */
  ghost predicate Found(e: Entry, pr: PullRequest) {
    e.1.find == Ok(Some(pr))
  }

  /** No pull request was found, though the task has been in review for ten minutes. */
  predicate Missing(e: Entry, nowMs: int) {
    e.1.find == Ok(None) && e.0.updatedAtMs > 0 && nowMs - e.0.updatedAtMs >= 600_000
  }

  /** Every round but the last bumps the version twice. */
  predicate RoundsLeft(e: Entry, maxRounds: nat) {
    e.0.version < 2 * maxRounds
  }

  ghost predicate FailsReview(e: Entry, nowMs: int) {
    Missing(e, nowMs) || exists pr :: Found(e, pr) && FailsRound(pr)
  }

  /** The verdict the reads on a task in review call for. */
  ghost predicate CallsFor(e: Entry, verdict: Decision, maxRounds: nat, nowMs: int) {
    match verdict
    case Approve => exists pr :: Found(e, pr) && pr.state == Merged
    case Drop => (exists pr :: Found(e, pr) && pr.state == Closed) || (FailsReview(e, nowMs) && !RoundsLeft(e, maxRounds))
    case Reject => FailsReview(e, nowMs) && RoundsLeft(e, maxRounds)
    case _ => false
  }

  /** The task is parked for at least a year: it has used up its attempts. */
  predicate OutOfAttempts(e: Entry, nowMs: int) {
    e.0.nextEligibleMs > 0 && e.0.nextEligibleMs - nowMs >= 31_536_000_000
  }

  /** A task that ended in the last day, and the open request the delivery hook left for it, green but for being a draft. */
  ghost predicate LeftBehind(e: Entry, pr: PullRequest, nowMs: int) {
    && e.0.updatedAtMs > 0 && nowMs - e.0.updatedAtMs <= 86_400_000
    && Found(e, pr) && Contains(pr.body, "Opened by the issue loop") && Green(pr.(draft := false))
  }

  /** The act an entry of the first list calls for. */
  ghost predicate ExhaustedCalls(e: Entry, act: Act, nowMs: int) {
    && OutOfAttempts(e, nowMs)
    && (act == WithdrawTask(e.0.id) || (act == HandOff(e.0.issue) && e.1.withdrawn && e.0.issue > 0))
  }

  /** The act, other than a merge, an entry of the second list calls for. */
  ghost predicate OrphanCalls(e: Entry, act: Act, nowMs: int) {
    exists pr :: LeftBehind(e, pr, nowMs) && pr.draft && act == Ready(pr.number)
  }

  /** The act, other than a merge, an entry of the third list calls for. */
  ghost predicate ReviewCalls(e: Entry, act: Act, maxRounds: nat, nowMs: int) {
    match act
    case Move(id, verdict) => id == e.0.id && e.1.claimed && CallsFor(e, verdict, maxRounds, nowMs)
    case HandOff(issue) => issue == e.0.issue && issue > 0 && e.1.claimed && e.1.moved && CallsFor(e, Drop, maxRounds, nowMs)
    case Ready(number) => exists pr :: Found(e, pr) && pr.number == number && pr.state == Open && pr.draft && !pr.dirty
    case _ => false
  }

  // ----- one task

  lemma ExhaustedOne(e: Entry, act: Act, nowMs: int)
    ensures act in ExhaustedActs(e, nowMs, false) <==> ExhaustedCalls(e, act, nowMs)
  {
  }

  lemma OrphanOne(repo: string, e: Entry, act: Act, nowMs: int, cache: Cache)
    requires !act.Arm?
    ensures act in OrphanActs(repo, e, nowMs, false, cache) <==> OrphanCalls(e, act, nowMs)
  {
    OrphanIs(e, nowMs);
    hide Decide, Contains, Green, MayMerge, IsOrphan;
    if e.1.find.Ok? && e.1.find.value.Some? {
      var pr := e.1.find.value.value;
      assert Found(e, pr);
    }
  }

  /** The orphans are the tasks with a request left behind. */
  lemma OrphanIs(e: Entry, nowMs: int)
    ensures IsOrphan(e, nowMs) <==> e.1.find.Ok? && e.1.find.value.Some? && LeftBehind(e, e.1.find.value.value, nowMs)
  {
    hide Decide, Contains, Green;
    if e.1.find.Ok? && e.1.find.value.Some? {
      var pr := e.1.find.value.value;
      MergesOnlyGreen(pr.(draft := false), 0, 0);
      GreenIsOpen(pr.(draft := false));
    }
  }

  lemma GreenIsOpen(pr: PullRequest)
    ensures Green(pr) ==> pr.state == Open
  {
  }

  lemma ReviewOne(repo: string, e: Entry, act: Act, maxRounds: nat, nowMs: int, cache: Cache)
    requires !act.Arm?
    ensures act in ReviewActs(repo, e, maxRounds, nowMs, false, cache) <==> ReviewCalls(e, act, maxRounds, nowMs)
  {
    hide Decide, MayMerge, FailsRound, Waits;
    assert e.0.version / 2 >= maxRounds <==> !RoundsLeft(e, maxRounds);
    if e.1.find.Ok? && e.1.find.value.Some? {
      var pr := e.1.find.value.value;
      DecidesExactly(pr, e.0.version / 2, maxRounds);
      assert Found(e, pr);
    }
  }

  // ----- a list of tasks

  lemma {:induction false} ExhaustedList(entries: seq<Entry>, act: Act, nowMs: int)
    ensures act in ExhaustedAll(entries, nowMs, false) <==> exists e :: e in entries && ExhaustedCalls(e, act, nowMs)
  {
    hide ExhaustedCalls, ExhaustedActs;
    if entries != [] {
      ExhaustedOne(entries[0], act, nowMs);
      ExhaustedList(entries[1..], act, nowMs);
      assert entries == [entries[0]] + entries[1..];
    }
  }

  lemma {:induction false} OrphanList(repo: string, entries: seq<Entry>, act: Act, nowMs: int, cache: Cache)
    requires !act.Arm?
    ensures act in OrphanAll(repo, entries, nowMs, false, cache).0 <==> exists e :: e in entries && OrphanCalls(e, act, nowMs)
  {
    hide OrphanCalls, OrphanActs, OrphanCache;
    if entries != [] {
      OrphanOne(repo, entries[0], act, nowMs, cache);
      OrphanList(repo, entries[1..], act, nowMs, OrphanCache(repo, entries[0], nowMs, cache));
      assert entries == [entries[0]] + entries[1..];
    }
  }

  lemma {:induction false} ReviewList(repo: string, entries: seq<Entry>, act: Act, maxRounds: nat, nowMs: int, cache: Cache)
    requires !act.Arm?
    ensures act in ReviewAll(repo, entries, maxRounds, nowMs, false, cache).0 <==>
            exists e :: e in entries && ReviewCalls(e, act, maxRounds, nowMs)
  {
    hide ReviewCalls, ReviewActs, ReviewCache;
    if entries != [] {
      ReviewOne(repo, entries[0], act, maxRounds, nowMs, cache);
      ReviewList(repo, entries[1..], act, maxRounds, nowMs, ReviewCache(repo, entries[0], maxRounds, nowMs, cache));
      assert entries == [entries[0]] + entries[1..];
    }
  }

  // ----- a tick

  /** The lists a tick gets to: an unreadable one ends it, and so does the lack of a reviewer's role. */
  function ExhaustedRead(tick: Tick): seq<Entry> {
    if tick.exhausted.Ok? then tick.exhausted.value else []
  }

  function EndedRead(tick: Tick): seq<Entry> {
    if tick.exhausted.Ok? && tick.ended.Ok? then tick.ended.value else []
  }

  function ReviewsRead(tick: Tick): seq<Entry> {
    if tick.exhausted.Ok? && tick.ended.Ok? && tick.inReview.Ok? && tick.hasRole then tick.inReview.value else []
  }

  lemma TickIsLists(repo: string, tick: Tick, maxRounds: nat, nowMs: int)
    ensures var orphans := OrphanAll(repo, EndedRead(tick), nowMs, false, None);
      TickActs(repo, tick, maxRounds, nowMs, false) ==
      ExhaustedAll(ExhaustedRead(tick), nowMs, false) + orphans.0 + ReviewAll(repo, ReviewsRead(tick), maxRounds, nowMs, false, orphans.1).0
  {
    hide ExhaustedActs, OrphanActs, OrphanCache, ReviewActs, ReviewCache;
  }

  /** Everything a tick does but arming merges happens if and only if what it read on some task of its lists calls for it. */
  lemma ActsExactly(repo: string, tick: Tick, maxRounds: nat, nowMs: int, act: Act)
    requires !act.Arm?
    ensures act in TickActs(repo, tick, maxRounds, nowMs, false) <==>
            || (exists e :: e in ExhaustedRead(tick) && ExhaustedCalls(e, act, nowMs))
            || (exists e :: e in EndedRead(tick) && OrphanCalls(e, act, nowMs))
            || (exists e :: e in ReviewsRead(tick) && ReviewCalls(e, act, maxRounds, nowMs))
  {
    hide ExhaustedAll, OrphanAll, ReviewAll, TickActs, ExhaustedCalls, OrphanCalls, ReviewCalls;
    var orphans := OrphanAll(repo, EndedRead(tick), nowMs, false, None);
    TickIsLists(repo, tick, maxRounds, nowMs);
    ExhaustedList(ExhaustedRead(tick), act, nowMs);
    OrphanList(repo, EndedRead(tick), act, nowMs, None);
    ReviewList(repo, ReviewsRead(tick), act, maxRounds, nowMs, orphans.1);
  }

  /**
   * When a task is moved: with approval exactly if its request is merged and it can be claimed; dropped exactly if the
   * request is closed, or its last round fails; sent back exactly if a round fails that is not the last.
   */
  lemma MovesExactly(repo: string, tick: Tick, maxRounds: nat, nowMs: int, id: string, verdict: Decision)
    ensures Move(id, verdict) in TickActs(repo, tick, maxRounds, nowMs, false) <==>
            exists e :: e in ReviewsRead(tick) && e.0.id == id && e.1.claimed && CallsFor(e, verdict, maxRounds, nowMs)
  {
    hide TickActs, CallsFor, LeftBehind;
    var act := Move(id, verdict);
    ActsExactly(repo, tick, maxRounds, nowMs, act);
    assert forall e :: ReviewCalls(e, act, maxRounds, nowMs) <==> e.0.id == id && e.1.claimed && CallsFor(e, verdict, maxRounds, nowMs);
  }

  // ----- merges happen

  /** The gate lets the request through whatever operator paths were read in the tick. */
  ghost predicate LetThrough(repo: string, e: Entry, pr: PullRequest, entries: seq<Entry>) {
    forall paths :: ReadInTick(entries, paths) ==> MayMerge(repo, pr, e.1.evidence, paths)
  }

  lemma LetThroughIsFree(repo: string, e: Entry, pr: PullRequest, entries: seq<Entry>, cache: Cache)
    requires e in entries && CacheRead(entries, cache) && LetThrough(repo, e, pr, entries)
    ensures Free(repo, pr, e.1.evidence, cache)
  {
    hide MayMerge, OperatorPaths;
    var i :| 0 <= i < |entries| && entries[i] == e;
    assert ReadInTick(entries, PathsInUse(cache, e.1.evidence.policy));
  }

  lemma {:induction false} ReviewsArm(repo: string, todo: seq<Entry>, e: Entry, pr: PullRequest, maxRounds: nat, nowMs: int, cache: Cache, entries: seq<Entry>)
    requires (forall x :: x in todo ==> x in entries) && CacheRead(entries, cache)
    requires e in todo && Found(e, pr) && Green(pr) && pr.head != "" && LetThrough(repo, e, pr, entries)
    ensures Arm(pr.number, pr.head) in ReviewAll(repo, todo, maxRounds, nowMs, false, cache).0
  {
    hide CacheRead, LetThrough, ReviewActs, ReviewCache, Green;
    if e == todo[0] {
      LetThroughIsFree(repo, e, pr, entries, cache);
      ArmsOne(repo, e, pr, maxRounds, nowMs, cache);
    } else {
      ReviewIsJustified(repo, todo[0], maxRounds, nowMs, false, cache, entries);
      ReviewsArm(repo, todo[1..], e, pr, maxRounds, nowMs, ReviewCache(repo, todo[0], maxRounds, nowMs, cache), entries);
    }
  }

  lemma ArmsOne(repo: string, e: Entry, pr: PullRequest, maxRounds: nat, nowMs: int, cache: Cache)
    requires Found(e, pr) && Green(pr) && pr.head != "" && Free(repo, pr, e.1.evidence, cache)
    ensures Arm(pr.number, pr.head) in ReviewActs(repo, e, maxRounds, nowMs, false, cache)
  {
    hide Decide, Green, MayMerge;
    MergesOnlyGreen(pr, e.0.version / 2, maxRounds);
    assert [Arm(pr.number, pr.head)][0] == Arm(pr.number, pr.head);
  }

  lemma {:induction false} OrphansArm(repo: string, todo: seq<Entry>, e: Entry, pr: PullRequest, nowMs: int, cache: Cache, entries: seq<Entry>)
    requires (forall x :: x in todo ==> x in entries) && CacheRead(entries, cache)
    requires e in todo && LeftBehind(e, pr, nowMs) && !pr.draft && pr.head != "" && LetThrough(repo, e, pr, entries)
    ensures Arm(pr.number, pr.head) in OrphanAll(repo, todo, nowMs, false, cache).0
  {
    hide CacheRead, LetThrough, OrphanActs, OrphanCache, LeftBehind;
    if e == todo[0] {
      LetThroughIsFree(repo, e, pr, entries, cache);
      ArmsOrphan(repo, e, pr, nowMs, cache);
    } else {
      OrphanIsJustified(repo, todo[0], nowMs, false, cache, entries);
      OrphansArm(repo, todo[1..], e, pr, nowMs, OrphanCache(repo, todo[0], nowMs, cache), entries);
    }
  }

  lemma ArmsOrphan(repo: string, e: Entry, pr: PullRequest, nowMs: int, cache: Cache)
    requires LeftBehind(e, pr, nowMs) && !pr.draft && pr.head != "" && Free(repo, pr, e.1.evidence, cache)
    ensures Arm(pr.number, pr.head) in OrphanActs(repo, e, nowMs, false, cache)
  {
    OrphanIs(e, nowMs);
    hide IsOrphan, Contains, Green, MayMerge;
    assert [Arm(pr.number, pr.head)][0] == Arm(pr.number, pr.head);
  }

  /**
   * The converse of merge safety: a green request of known head that the gate lets through is armed, found for a task in
   * review or left behind by one that ended.
   */
  lemma GreenIsMerged(repo: string, tick: Tick, maxRounds: nat, nowMs: int, e: Entry, pr: PullRequest)
    requires Found(e, pr) && Green(pr) && pr.head != "" && LetThrough(repo, e, pr, Judged(tick))
    requires e in ReviewsRead(tick) || (e in EndedRead(tick) && LeftBehind(e, pr, nowMs))
    ensures Arm(pr.number, pr.head) in TickActs(repo, tick, maxRounds, nowMs, false)
  {
    NothingReadYet(Judged(tick));
    NotDraft(pr);
    hide ExhaustedAll, OrphanAll, ReviewAll, TickActs, LetThrough, LeftBehind, Green, CacheRead, Found;
    TickIsLists(repo, tick, maxRounds, nowMs);
    var orphans := OrphanAll(repo, EndedRead(tick), nowMs, false, None);
    OrphansAreJustified(repo, EndedRead(tick), nowMs, false, None, Judged(tick));
    if e in ReviewsRead(tick) {
      ReviewsArm(repo, ReviewsRead(tick), e, pr, maxRounds, nowMs, orphans.1, Judged(tick));
    } else {
      OrphansArm(repo, EndedRead(tick), e, pr, nowMs, None, Judged(tick));
    }
  }

  lemma NotDraft(pr: PullRequest)
    ensures Green(pr) ==> !pr.draft
  {
  }

  /** A request whose branch has required checks that all passed, and whose files match no path of a policy file that was read. */
  ghost predicate Vetted(e: Entry, pr: PullRequest, entries: seq<Entry>) {
    && e.1.evidence.required.Ok? && e.1.evidence.required.value != [] && e.1.evidence.files.Ok?
    && (forall name :: name in e.1.evidence.required.value ==> exists c :: c in pr.checks && c.name == name && c.conclusion == Success)
    && (exists p :: p in entries && p.1.evidence.policy.Names? && p.1.evidence.policy.paths != []
          && forall f, path :: f in e.1.evidence.files.value && path in p.1.evidence.policy.paths ==> !Glob.Accepts(path, f))
  }

  /**
   * Every merge a tick arms: the request was found for a task of the tick, at the head it was judged at, green; its branch has
   * required checks and all of them passed; and no file it changes matches a path of the policy file that was read.
   */
  lemma MergeWasVetted(repo: string, tick: Tick, maxRounds: nat, nowMs: int, dryRun: bool, act: Act) returns (e: Entry, pr: PullRequest)
    requires act in TickActs(repo, tick, maxRounds, nowMs, dryRun) && act.Arm?
    ensures repo != "lightwave-media/lightwave-core" && e in Judged(tick) && Found(e, pr)
    ensures act == Arm(pr.number, pr.head) && pr.head != "" && Green(pr) && Vetted(e, pr, Judged(tick))
  {
    hide TickActs, Green, Glob.Accepts, Judged;
    MergesAreSafe(repo, tick, maxRounds, nowMs, dryRun);
    var entries := Judged(tick);
    var i :| 0 <= i < |entries| && JustifiesArm(repo, act, entries[i], entries);
    e, pr := entries[i], entries[i].1.find.value.value;
    var paths :| ReadInTick(entries, paths) && MayMerge(repo, pr, e.1.evidence, paths);
    var j :| 0 <= j < |entries| && paths == OperatorPaths(entries[j].1.evidence.policy);
    assert entries[j] in entries;
    assert forall name :: name in e.1.evidence.required.value ==> Passed(pr.checks, name);
  }
}
