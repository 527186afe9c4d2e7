/**
 * lw release propagate: bringing a worktree onto a commit of main, and proving it with CI.
 * Every git command takes what it answers as a parameter; an answer git could not give is taken for a failure.
 */
module Propagate {
  import opened Text
  import opened CommitGraph

  datatype Detail =
    | StatusUnreadable | UncommittedChanges | DryRun | FetchFailed | NoCandidate | NotOnMain | NoMergeBase | NewerMain
    | RebaseConflict | BaseMismatch | NoHead | CiFailed | ChangedDuringCi | Green

  datatype Outcome = Outcome(rebased: bool, ciOk: bool, blocked: bool, detail: Detail)

  /**
   * What a rebase does: stop and be aborted or not, or put the commits on top of the target. Those that
   * stand there in a line already are kept, the others are replayed; without any of those it was up to date.
   */
  datatype RebaseAnswer =
    | Conflict
    | Stuck(head: Commit)
    | Replayed(kept: seq<Commit>, added: seq<Commit>)

  /** How CI ends, and what anybody did to the repository and the worktree meanwhile. */
  datatype CiAnswer = CiAnswer(green: bool, graph: Graph, head: Commit, main: Commit, dirty: bool)

  datatype Fetched = Fetched(graph: Graph, main: Commit)

  datatype Answers = Answers(
    status: bool, fetch: Option<Fetched>, revParse: bool, onMain: bool, base: Option<Commit>, guard: bool,
    rebase: RebaseAnswer, recheck: Option<Commit>, head: bool, ci: CiAnswer, headAfter: bool, statusAfter: bool)

  /** The repository and the worktree at some moment. */
  datatype Moment = Moment(graph: Graph, head: Commit, main: Commit, dirty: bool)

  /** A rebase that was started: where, and from which base onto which commit. */
  datatype Rebase = Rebase(before: Moment, base: Commit, onto: Commit)

  class Worktree {
    var graph: Graph
    var head: Commit
    var originMain: Commit
    var dirty: bool
    /** The rebases started in this worktree. */
    var rebases: seq<Rebase>
    /** The moments at which CI was started. */
    var ciRuns: seq<Moment>

    ghost predicate Valid()
      reads this
    {
      Wf(graph) && head in graph && originMain in graph
    }

    function Now(): Moment
      reads this
    {
      Moment(graph, head, originMain, dirty)
    }

    /** worktreeIsDirty */
    method Status(ran: bool) returns (r: Option<bool>)
      ensures r == if ran then Some(dirty) else None
    {
      r := if ran then Some(dirty) else None;
    }

    /** git fetch origin: commits are added and origin/main may be another one. */
    method Fetch(answer: Option<Fetched>) returns (ok: bool)
      requires Valid()
      modifies this`graph, this`originMain
      ensures Valid() && Extends(old(graph), graph)
      ensures !ok ==> Now() == old(Now())
      ensures ok <==> FetchWorks(old(Now()), answer)
      ensures ok ==> answer.Some? && graph == answer.value.graph && originMain == answer.value.main
    {
      hide Ancestor;
      ok := answer.Some? && Extends(graph, answer.value.graph) && answer.value.main in answer.value.graph;
      if ok {
        graph, originMain := answer.value.graph, answer.value.main;
      }
    }

    /** git rev-parse --verify */
    method RevParse(candidate: Option<Commit>, ran: bool) returns (r: Option<Commit>)
      requires Valid()
      ensures r.Some? <==> ran && (if candidate.Some? then candidate.value else originMain) in graph
      ensures r.Some? ==> r.value in graph && r.value == if candidate.Some? then candidate.value else originMain
    {
      var c := if candidate.Some? then candidate.value else originMain;
      r := if ran && c in graph then Some(c) else None;
    }

    /** git merge-base --is-ancestor; a command that does not run says no. */
    method IsAncestor(a: Commit, c: Commit, ran: bool) returns (yes: bool)
      ensures yes <==> ran && Ancestor(graph, a, c)
    {
      yes := ran && Ancestor(graph, a, c);
    }

    /** git merge-base HEAD origin/main */
    method MergeBase(answer: Option<Commit>) returns (r: Option<Commit>)
      ensures r == if answer.Some? && IsMergeBase(graph, answer.value, head, originMain) then answer else None
    {
      r := if answer.Some? && IsMergeBase(graph, answer.value, head, originMain) then answer else None;
    }

    /** git rebase, and git rebase --abort when it fails. */
    method RunRebase(base: Commit, target: Commit, answer: RebaseAnswer) returns (ok: bool)
      requires Valid() && target in graph
      modifies this`graph, this`head, this`dirty, this`rebases
      ensures Valid() && rebases == old(rebases) + [Rebase(old(Now()), base, target)]
      ensures Extends(old(graph), graph)
      ensures !ok && !answer.Stuck? ==> Now() == old(Now())
      ensures ok ==> RebaseResult(old(Now()), target, answer, Now())
      ensures (if ok then None else Some(RebaseConflict), Now()) == RebaseEnds(old(Now()), target, answer)
    {
      hide Ancestor, AllNew, Line;
      rebases := rebases + [Rebase(Now(), base, target)];
      match answer
      case Conflict =>
        ok := false;
      case Stuck(h) =>
        if h in graph {
          head, dirty := h, true;
        }
        ok := false;
      case Replayed(kept, added) =>
        var onto := Tip(target, kept);
        ok := Line(graph, target, kept) && (kept == [] || Ancestor(graph, onto, head)) && AllNew(graph, onto, added);
        if ok {
          LineAncestors(graph, target, kept);
          ChainAncestors(graph, onto, added);
          graph, head := RebasedGraph(graph, target, kept, added), RebasedTip(target, kept, added);
        }
    }

    /** The CI run, during which anything may happen to the repository and the worktree. */
    method RunCi(answer: CiAnswer) returns (green: bool)
      requires Valid()
      modifies this`graph, this`head, this`originMain, this`dirty, this`ciRuns
      ensures Valid() && Extends(old(graph), graph) && green == answer.green
      ensures ciRuns == old(ciRuns) + [old(Now())] && Now() == AfterCi(old(Now()), answer)
    {
      hide Ancestor;
      ciRuns := ciRuns + [Now()];
      if Extends(graph, answer.graph) && answer.head in answer.graph && answer.main in answer.graph {
        graph, head, originMain, dirty := answer.graph, answer.head, answer.main, answer.dirty;
      }
      green := answer.green;
    }

    /** The last part of propagateWorktree: CI, and whether it tested what is there afterwards. */
    method TestHead(a: Answers) returns (detail: Detail)
      requires Valid()
      modifies this`graph, this`head, this`originMain, this`dirty, this`ciRuns
      ensures Valid() && Extends(old(graph), graph) && detail in {NoHead, CiFailed, ChangedDuringCi, Green}
      ensures detail == NoHead ==> Now() == old(Now()) && ciRuns == old(ciRuns)
      ensures detail != NoHead ==> ciRuns == old(ciRuns) + [old(Now())]
      ensures detail == Green <==> a.head && a.ci.green && a.headAfter && a.statusAfter && head == old(head) && !dirty
      ensures (detail, Now()) == TestEnds(old(Now()), a)
    {
      hide Wf, Extends;
      Unchanged(graph);
      if !a.head {
        return NoHead;
      }
      var testedHead := head;
      var green := RunCi(a.ci);
      if !green {
        return CiFailed;
      }
      var dirtyAfter := Status(a.statusAfter);
      if !a.headAfter || dirtyAfter.None? || dirtyAfter.value || head != testedHead {
        return ChangedDuringCi;
      }
      return Green;
    }

    /** The first part of propagateWorktree: the checks before anything is moved, the commit asked for and the base. */
    method Survey(mainSha: Option<Commit>, apply: bool, a: Answers) returns (failed: Option<Detail>, target: Commit, base: Commit)
      requires Valid()
      modifies this`graph, this`originMain
      ensures Valid() && Extends(old(graph), graph)
      ensures failed in {Some(StatusUnreadable), Some(UncommittedChanges), Some(DryRun), Some(FetchFailed), Some(NoCandidate), Some(NotOnMain),
                         Some(NoMergeBase), None}
      ensures failed == None ==> apply && a.status && !dirty && target in graph && Ancestor(graph, target, originMain)
      ensures failed == None ==> IsMergeBase(graph, base, head, originMain) && a.base == Some(base)
      ensures failed == None || failed == Some(NotOnMain) ==>
                a.fetch.Some? && Now() == Fetch1(old(Now()), a.fetch.value) && target == Wanted(mainSha, originMain)
      ensures failed == Some(NotOnMain) && a.onMain ==> !Ancestor(graph, target, originMain)
      ensures !apply || dirty || !a.status ==> Now() == old(Now()) && failed.Some?
      ensures (failed, Now()) == Surveyed(old(Now()), mainSha, apply, a)
    {
      hide Ancestor, IsMergeBase, Wf, Extends;
      Unchanged(graph);
      target, base := head, head;
      var status := Status(a.status);
      if status.None? {
        return Some(StatusUnreadable), target, base;
      } else if status.value {
        return Some(UncommittedChanges), target, base;
      }
      if !apply {
        return Some(DryRun), target, base;
      }
      var ok := Fetch(a.fetch);
      if !ok {
        return Some(FetchFailed), target, base;
      }
      var commit := RevParse(mainSha, a.revParse);
      if commit.None? {
        return Some(NoCandidate), target, base;
      }
      target := commit.value;
      var onMain := IsAncestor(commit.value, originMain, a.onMain);
      if !onMain {
        return Some(NotOnMain), target, base;
      }
      var b := MergeBase(a.base);
      if b.None? {
        return Some(NoMergeBase), target, base;
      }
      return None, commit.value, b.value;
    }

    /** The middle part of propagateWorktree: a rebase unless the base is the target already. */
    method MoveOnto(base: Commit, target: Commit, a: Answers) returns (failed: Option<Detail>)
      requires Valid() && target in graph
      modifies this`graph, this`head, this`dirty, this`rebases
      ensures Valid() && Extends(old(graph), graph)
      ensures rebases == old(rebases) || rebases == old(rebases) + [Rebase(old(Now()), base, target)]
      ensures rebases != old(rebases) ==> base != target && (a.guard ==> !Ancestor(old(graph), target, base))
      ensures rebases == old(rebases) ==> Now() == old(Now()) && (failed == Some(NewerMain) || (failed == None && base == target))
      ensures rebases != old(rebases) ==> failed == Some(RebaseConflict) || (failed == None && RebaseResult(old(Now()), target, a.rebase, Now()))
      ensures failed == None ==> dirty == old(dirty)
      ensures failed == Some(NewerMain) ==> base != target && Ancestor(old(graph), target, base)
      ensures failed == Some(RebaseConflict) && !a.rebase.Stuck? ==> Now() == old(Now())
      ensures (failed, Now()) == MoveEnds(old(Now()), base, target, a)
    {
      hide Ancestor, Wf, Line, AllNew;
      Unchanged(graph);
      if base == target {
        return None;
      }
      var newer := IsAncestor(target, base, a.guard);
      if newer {
        return Some(NewerMain);
      }
      var ok := RunRebase(base, target, a.rebase);
      return if ok then None else Some(RebaseConflict);
    }

    /** propagateWorktree */
    method PropagateWorktree(mainSha: Option<Commit>, apply: bool, a: Answers) returns (res: Outcome)
      requires Valid()
      modifies this
      ensures Valid() && Extends(old(graph), graph)
      ensures res.ciOk <==> res.detail == Green
      ensures res.blocked <==> res.detail != Green && res.detail != DryRun
      // How it ends, and what is left behind, for every pattern of answers.
      ensures (res, Now()) == Ends(old(Now()), mainSha, apply, a)
      // What a success proves: one CI run more, on what is there now, sharing exactly the commit asked for with main.
      ensures res.ciOk ==> ciRuns != [] && ciRuns == old(ciRuns) + [ciRuns[|ciRuns| - 1]]
      ensures res.ciOk ==> Proven(old(Now()), a, mainSha, res.rebased, ciRuns[|ciRuns| - 1])
      ensures res.ciOk ==> ciRuns[|ciRuns| - 1].head == head && Extends(ciRuns[|ciRuns| - 1].graph, graph) && !dirty && a.ci.green
      ensures res.detail !in {Green, CiFailed, ChangedDuringCi} ==> ciRuns == old(ciRuns)
      // Every rebase is one that was called for.
      ensures rebases != old(rebases) ==> a.fetch.Some? && a.base.Some?
      ensures rebases != old(rebases) ==>
                var r := Rebase(Fetch1(old(Now()), a.fetch.value), a.base.value, Wanted(mainSha, a.fetch.value.main));
                rebases == old(rebases) + [r] && CalledFor(r, a.guard)
      ensures res.rebased ==> rebases != old(rebases)
      ensures rebases != old(rebases) ==> res.rebased || res.detail == RebaseConflict
      // The recheck refuses only a kept commit that is on main, or git that fails or contradicts itself.
      ensures res.detail == BaseMismatch && a.recheck.Some? && IsMergeBase(graph, a.recheck.value, head, originMain) ==>
                if res.rebased
                then a.fetch.Some? && a.rebase.Replayed? && KeptOnMain(a.fetch.value, a.rebase.kept)
                     && SharesChild(Fetch1(old(Now()), a.fetch.value), Wanted(mainSha, a.fetch.value.main))
                     && (a.guard ==> !Linear(a.fetch.value.graph, a.fetch.value.main))
                else a.recheck != a.base
      // What the two refusals about main mean.
      ensures res.detail == NotOnMain && a.onMain ==> !Ancestor(graph, Wanted(mainSha, originMain), originMain)
      ensures res.detail == NewerMain ==>
                a.base.Some? && IsNewer(Now(), a.base.value, Wanted(mainSha, originMain))
      // Nothing is touched when the tree is dirty or it is a dry run.
      ensures !apply || old(dirty) || !a.status ==> Now() == old(Now()) && rebases == old(rebases) && !res.ciOk
      ensures res.detail == RebaseConflict && !a.rebase.Stuck? ==> head == old(head) && !dirty
    {
      hide Ancestor, IsMergeBase, Linear, Wf, Extends, Shares, CalledFor, KeptOnMain, SharesChild, IsNewer, RebaseAndTestEnds, FetchWorks, Surveyed;
      var failed, target, base := Survey(mainSha, apply, a);
      if failed.Some? {
        return Outcome(false, false, failed.value != DryRun, failed.value);
      }
      ghost var fetched := graph;
      res := RebaseAndTest(base, target, a);
      ExtendsThrough(old(graph), fetched, graph);
    }

    /** The rest of propagateWorktree, once it is known where to go: the rebase, the recheck and CI. */
    method RebaseAndTest(base: Commit, target: Commit, a: Answers) returns (res: Outcome)
      requires Valid() && target in graph && !dirty && a.base == Some(base)
      requires IsMergeBase(graph, base, head, originMain) && Ancestor(graph, target, originMain)
      modifies this
      ensures Valid() && Extends(old(graph), graph)
      ensures res.detail in {NewerMain, RebaseConflict, BaseMismatch, NoHead, CiFailed, ChangedDuringCi, Green}
      ensures (res.ciOk <==> res.detail == Green) && (res.blocked <==> res.detail != Green)
      ensures (res, Now()) == RebaseAndTestEnds(old(Now()), base, target, a)
      ensures res.ciOk ==> ciRuns != [] && ciRuns == old(ciRuns) + [ciRuns[|ciRuns| - 1]]
      ensures res.ciOk ==> Shares(old(Now()), target, a.rebase, res.rebased, ciRuns[|ciRuns| - 1])
      ensures res.ciOk ==> ciRuns[|ciRuns| - 1].head == head && Extends(ciRuns[|ciRuns| - 1].graph, graph) && !dirty && a.ci.green
      ensures res.detail !in {Green, CiFailed, ChangedDuringCi} ==> ciRuns == old(ciRuns)
      ensures rebases != old(rebases) ==>
                var r := Rebase(old(Now()), base, target);
                rebases == old(rebases) + [r] && CalledFor(r, a.guard)
      ensures res.rebased ==> rebases != old(rebases)
      ensures rebases != old(rebases) ==> res.rebased || res.detail == RebaseConflict
      ensures res.detail == BaseMismatch && a.recheck.Some? && IsMergeBase(graph, a.recheck.value, head, originMain) ==>
                if res.rebased
                then a.rebase.Replayed? && KeptOnMain(Fetched(old(graph), old(originMain)), a.rebase.kept)
                     && SharesChild(old(Now()), target)
                     && (a.guard ==> !Linear(old(graph), old(originMain)))
                else a.recheck != a.base
      ensures res.detail == NewerMain ==> IsNewer(Now(), base, target) && Now() == old(Now())
      ensures res.detail == RebaseConflict && !a.rebase.Stuck? ==> head == old(head) && !dirty
    {
      hide Ancestor, IsMergeBase, Linear, Wf, Extends, Shares, CalledFor, KeptOnMain, SharesChild, RebaseResult;
      ghost var fetched := Now();
      ItIsCalledFor(fetched, base, target, a.guard);
      var failed := MoveOnto(base, target, a);
      if failed.Some? {
        return Outcome(false, false, true, failed.value);
      }
      var rebased := base != target;
      ghost var at := Now();
      var again := MergeBase(a.recheck);
      if again != Some(target) {
        if again.Some? && rebased {
          MismatchMeans(fetched, base, target, a.rebase, a.guard, at, again.value);
        }
        return Outcome(rebased, false, true, BaseMismatch);
      }
      ItIsShared(fetched, target, a.rebase, rebased, at);
      var detail := TestHead(a);
      ExtendsThrough(fetched.graph, at.graph, graph);
      return Outcome(rebased, detail == Green, detail != Green, detail);
    }
  }

  /** The base with main is another commit, with the one asked for behind it. */
  predicate IsNewer(m: Moment, base: Commit, target: Commit) {
    base != target && Ancestor(m.graph, target, base) && IsMergeBase(m.graph, base, m.head, m.main)
  }

  /** The commit asked for: the candidate, or main as it is. */
  function Wanted(mainSha: Option<Commit>, main: Commit): Commit {
    if mainSha.Some? then mainSha.value else main
  }

  /** A moment after a fetch. */
  function Fetch1(was: Moment, fetched: Fetched): Moment {
    was.(graph := fetched.graph, main := fetched.main)
  }

  // ----- how each part ends

  predicate FetchWorks(was: Moment, answer: Option<Fetched>) {
    answer.Some? && Extends(was.graph, answer.value.graph) && answer.value.main in answer.value.graph
  }

  /** The checks before anything moves: the first that fails, and the moment reached. */
  function Surveyed(was: Moment, mainSha: Option<Commit>, apply: bool, a: Answers): (Option<Detail>, Moment) {
    if !a.status then (Some(StatusUnreadable), was)
    else if was.dirty then (Some(UncommittedChanges), was)
    else if !apply then (Some(DryRun), was)
    else if !FetchWorks(was, a.fetch) then (Some(FetchFailed), was) else
    var m := Fetch1(was, a.fetch.value);
    var target := Wanted(mainSha, m.main);
    if !a.revParse || target !in m.graph then (Some(NoCandidate), m)
    else if !a.onMain || !Ancestor(m.graph, target, m.main) then (Some(NotOnMain), m)
    else if a.base.None? || !IsMergeBase(m.graph, a.base.value, m.head, m.main) then (Some(NoMergeBase), m)
    else (None, m)
  }

  function RebaseEnds(m: Moment, target: Commit, answer: RebaseAnswer): (Option<Detail>, Moment) {
    match answer
    case Conflict => (Some(RebaseConflict), m)
    case Stuck(h) => (Some(RebaseConflict), if h in m.graph then m.(head := h, dirty := true) else m)
    case Replayed(kept, added) =>
      if CanReplay(m, target, kept, added)
      then (None, m.(graph := RebasedGraph(m.graph, target, kept, added), head := RebasedTip(target, kept, added)))
      else (Some(RebaseConflict), m)
  }

  predicate CanReplay(m: Moment, target: Commit, kept: seq<Commit>, added: seq<Commit>) {
    && Line(m.graph, target, kept) && (kept == [] || Ancestor(m.graph, Tip(target, kept), m.head))
    && AllNew(m.graph, Tip(target, kept), added)
  }

  function MoveEnds(m: Moment, base: Commit, target: Commit, a: Answers): (Option<Detail>, Moment) {
    if base == target then (None, m)
    else if a.guard && Ancestor(m.graph, target, base) then (Some(NewerMain), m)
    else RebaseEnds(m, target, a.rebase)
  }

  function AfterCi(m: Moment, ci: CiAnswer): Moment {
    if Extends(m.graph, ci.graph) && ci.head in ci.graph && ci.main in ci.graph then Moment(ci.graph, ci.head, ci.main, ci.dirty) else m
  }

  function TestEnds(m: Moment, a: Answers): (Detail, Moment) {
    if !a.head then (NoHead, m) else
    var after := AfterCi(m, a.ci);
    if !a.ci.green then (CiFailed, after)
    else if !a.headAfter || !a.statusAfter || after.dirty || after.head != m.head then (ChangedDuringCi, after)
    else (Green, after)
  }

  function RebaseAndTestEnds(m: Moment, base: Commit, target: Commit, a: Answers): (Outcome, Moment) {
    var (failed, at) := MoveEnds(m, base, target, a);
    if failed.Some? then (Outcome(false, false, true, failed.value), at)
    else if a.recheck != Some(target) || !IsMergeBase(at.graph, target, at.head, at.main)
    then (Outcome(base != target, false, true, BaseMismatch), at)
    else
      var (detail, after) := TestEnds(at, a);
      (Outcome(base != target, detail == Green, detail != Green, detail), after)
  }

  function Ends(was: Moment, mainSha: Option<Commit>, apply: bool, a: Answers): (Outcome, Moment) {
    var (failed, m) := Surveyed(was, mainSha, apply, a);
    if failed.Some? then (Outcome(false, false, failed.value != DryRun, failed.value), m)
    else if a.base.None? then (Outcome(false, false, true, NoMergeBase), m)
    else RebaseAndTestEnds(m, a.base.value, Wanted(mainSha, m.main), a)
  }

  /** The worktree where CI starts: as fetched, or rebased. */
  function AtCi(m: Moment, base: Commit, target: Commit, a: Answers): Moment {
    MoveEnds(m, base, target, a).1
  }

  /** Every git command ran, and what it answered allows the next step. */
  ghost predicate AllGood(was: Moment, mainSha: Option<Commit>, a: Answers) {
    && a.status && !was.dirty && FetchWorks(was, a.fetch) && a.revParse && a.onMain && a.base.Some?
    && var m := Fetch1(was, a.fetch.value);
    var target, base := Wanted(mainSha, m.main), a.base.value;
    && target in m.graph && Ancestor(m.graph, target, m.main) && IsMergeBase(m.graph, base, m.head, m.main)
    // The base is the commit asked for, or a rebase onto that succeeds that is not known to go back.
    && (base == target || ((a.guard ==> !Ancestor(m.graph, target, base))
                           && a.rebase.Replayed? && CanReplay(m, target, a.rebase.kept, a.rebase.added)))
    // Then the base is the commit asked for, CI is green, and nothing moved.
    && var at := AtCi(m, base, target, a);
    && a.recheck == Some(target) && IsMergeBase(at.graph, target, at.head, at.main)
    && a.head && a.ci.green && a.headAfter && a.statusAfter && AfterCi(at, a.ci).head == at.head && !AfterCi(at, a.ci).dirty
  }

  /** When propagating succeeds: exactly if it is no dry run and every step goes well. */
  lemma SucceedsExactly(was: Moment, mainSha: Option<Commit>, apply: bool, a: Answers)
    ensures Ends(was, mainSha, apply, a).0.ciOk <==> apply && AllGood(was, mainSha, a)
    ensures Ends(was, mainSha, apply, a).0.detail == DryRun <==> a.status && !was.dirty && !apply
  {
    hide Ancestor, IsMergeBase, Extends, CanReplay, RebasedGraph, AllNew, Line;
  }

  /** What a rebase that succeeds leaves behind. */
  ghost predicate RebaseResult(before: Moment, target: Commit, answer: RebaseAnswer, after: Moment) {
    && after.main == before.main && after.dirty == before.dirty && answer.Replayed?
    && Line(before.graph, target, answer.kept) && (answer.kept == [] || Ancestor(before.graph, Tip(target, answer.kept), before.head))
    && AllNew(before.graph, Tip(target, answer.kept), answer.added)
    && after.graph == RebasedGraph(before.graph, target, answer.kept, answer.added)
    && after.head == RebasedTip(target, answer.kept, answer.added)
  }

  /**
   * What CI is run on: the worktree as it was with main as fetched, or that rebased onto the target; clean, and
   * sharing exactly the target with main, which main holds.
   */
  ghost predicate Shares(fetched: Moment, target: Commit, answer: RebaseAnswer, rebased: bool, m: Moment) {
    && Extends(fetched.graph, m.graph) && m.main == fetched.main && !m.dirty
    && (if rebased then RebaseResult(fetched, target, answer, m) else m == fetched)
    && IsMergeBase(m.graph, target, m.head, m.main) && Ancestor(m.graph, target, m.main)
  }

  /** The same from the start: main is what the fetch brought, and the target the commit asked for. */
  ghost predicate Proven(was: Moment, a: Answers, mainSha: Option<Commit>, rebased: bool, m: Moment) {
    && a.fetch.Some? && Extends(was.graph, a.fetch.value.graph)
    && Shares(Fetch1(was, a.fetch.value), Wanted(mainSha, a.fetch.value.main), a.rebase, rebased, m)
  }

  /** Some commit that a rebase kept is on main already; then its first one is. */
  predicate KeptOnMain(fetched: Fetched, kept: seq<Commit>) {
    kept != [] && Ancestor(fetched.graph, kept[0], fetched.main)
  }

  /** A rebase of a clean tree, away from its base and, as far as git could tell, not onto an ancestor of it. */
  predicate CalledFor(r: Rebase, guardRan: bool) {
    && !r.before.dirty && r.base != r.onto
    && IsMergeBase(r.before.graph, r.base, r.before.head, r.before.main) && Ancestor(r.before.graph, r.onto, r.before.main)
    && (guardRan ==> !Ancestor(r.before.graph, r.onto, r.base))
  }

  /** A commit that main and the worktree both hold stands directly on the target. */
  ghost predicate SharesChild(m: Moment, target: Commit) {
    exists c :: c in m.graph && m.graph[c] == [target] && Ancestor(m.graph, c, m.head) && Ancestor(m.graph, c, m.main)
  }

  lemma Unchanged(g: Graph)
    requires Wf(g)
    ensures Extends(g, g)
  {
  }

  lemma ExtendsThrough(g: Graph, g': Graph, g'': Graph)
    ensures Extends(g, g') && Extends(g', g'') ==> Extends(g, g'')
  {
  }

  lemma ItIsShared(fetched: Moment, target: Commit, answer: RebaseAnswer, rebased: bool, m: Moment)
    requires Wf(fetched.graph) && fetched.main in fetched.graph && Extends(fetched.graph, m.graph) && m.main == fetched.main && !m.dirty
    requires if rebased then RebaseResult(fetched, target, answer, m) else m == fetched
    requires IsMergeBase(m.graph, target, m.head, m.main) && Ancestor(fetched.graph, target, m.main)
    ensures Shares(fetched, target, answer, rebased, m)
  {
    hide Ancestor, IsMergeBase, RebaseResult;
    ExtensionKeepsAncestors(fetched.graph, m.graph, target, m.main);
  }

  lemma ItIsCalledFor(before: Moment, base: Commit, target: Commit, guardRan: bool)
    requires !before.dirty && IsMergeBase(before.graph, base, before.head, before.main) && Ancestor(before.graph, target, before.main)
    ensures base != target && (guardRan ==> !Ancestor(before.graph, target, base)) ==>
              CalledFor(Rebase(before, base, target), guardRan)
  {
  }

  /** On a linear main a rebase moves the base forward. */
  lemma BaseMovesForward(r: Rebase)
    requires CalledFor(r, true) && Linear(r.before.graph, r.before.main)
    ensures Ancestor(r.before.graph, r.base, r.onto) && r.base < r.onto
  {
    var g := r.before.graph;
    AncestorIsOlder(g, r.base, r.before.main);
    AncestorIsOlder(g, r.onto, r.before.main);
    AncestorIsOlder(g, r.base, r.onto);
  }

  /** After a rebase the recheck finds the target, and nothing else can be found, exactly if no kept commit is on main. */
  lemma RecheckPassesExactly(before: Moment, target: Commit, answer: RebaseAnswer, at: Moment)
    requires Wf(before.graph) && target in before.graph && before.main in before.graph && Ancestor(before.graph, target, before.main)
    requires RebaseResult(before, target, answer, at)
    ensures IsMergeBase(at.graph, target, at.head, at.main) <==> !KeptOnMain(Fetched(before.graph, before.main), answer.kept)
    ensures IsMergeBase(at.graph, target, at.head, at.main) ==> forall m :: IsMergeBase(at.graph, m, at.head, at.main) ==> m == target
  {
    hide Ancestor, IsMergeBase, Line, AllNew, Wf;
    if KeptOnMain(Fetched(before.graph, before.main), answer.kept) {
      KeptIsNoBase(before.graph, target, answer.kept, answer.added, before.main);
    } else {
      forall m ensures IsMergeBase(at.graph, m, at.head, at.main) <==> m == target {
        RebasedBase(before.graph, target, answer.kept, answer.added, before.main, m);
      }
    }
  }

  /** A kept commit on main is such a commit. */
  lemma KeptIsShared(before: Moment, target: Commit, answer: RebaseAnswer, at: Moment)
    requires Wf(before.graph) && RebaseResult(before, target, answer, at) && KeptOnMain(Fetched(before.graph, before.main), answer.kept)
    ensures SharesChild(before, target)
  {
    var g, kept := before.graph, answer.kept;
    LineAt(g, target, kept, 0);
    FirstOfLine(g, target, kept, |kept| - 1);
    hide Ancestor, Line, AllNew, Wf;
    AncestorIsTransitive(g, kept[0], kept[|kept| - 1], before.head);
    assert kept[0] in g && g[kept[0]] == [target];
  }

  /**
   * Before the rebase: some way for it to go leaves another merge base than the target if and only if a commit that
   * main and the worktree both hold stands directly on the target.
   */
  lemma RebaseCanMissExactly(before: Moment, target: Commit)
    requires Wf(before.graph) && target in before.graph && before.main in before.graph && Ancestor(before.graph, target, before.main)
    ensures SharesChild(before, target) <==>
            exists answer, at :: RebaseResult(before, target, answer, at) && !IsMergeBase(at.graph, target, at.head, at.main)
  {
    hide IsMergeBase;
    if SharesChild(before, target) {
      var c :| c in before.graph && before.graph[c] == [target] && Ancestor(before.graph, c, before.head) && Ancestor(before.graph, c, before.main);
      var answer := Replayed([c], []);
      var at := Moment(RebasedGraph(before.graph, target, [c], []), RebasedTip(target, [c], []), before.main, before.dirty);
      assert RebaseResult(before, target, answer, at);
      RecheckPassesExactly(before, target, answer, at);
    }
    hide RebaseResult, SharesChild, Wf;
    if answer, at :| RebaseResult(before, target, answer, at) && !IsMergeBase(at.graph, target, at.head, at.main) {
      RecheckPassesExactly(before, target, answer, at);
      KeptIsShared(before, target, answer, at);
    }
  }

  /** On a linear main a rebase that is called for keeps no commit that is on main, so the recheck passes. */
  lemma LinearMainPasses(r: Rebase, answer: RebaseAnswer, at: Moment)
    requires CalledFor(r, true) && RebaseResult(r.before, r.onto, answer, at)
    requires Wf(r.before.graph) && r.onto in r.before.graph && r.before.main in r.before.graph
    requires Linear(r.before.graph, r.before.main)
    ensures IsMergeBase(at.graph, r.onto, at.head, at.main)
  {
    hide Ancestor, IsMergeBase, Linear, Wf, Line, AllNew;
    var g, kept := r.before.graph, answer.kept;
    RecheckPassesExactly(r.before, r.onto, answer, at);
    if KeptOnMain(Fetched(g, r.before.main), kept) {
      var n := |kept| - 1;
      FirstOfLine(g, r.onto, kept, n);
      FirstOfLine(g, r.onto, kept, 0);
      AncestorIsTransitive(g, kept[0], kept[n], r.before.head);
      LinearMergeBase(g, r.base, r.before.head, r.before.main, kept[0]);
      AncestorIsTransitive(g, r.onto, kept[0], r.base);
      assert false;
    }
  }

  lemma MismatchMeans(before: Moment, base: Commit, target: Commit, answer: RebaseAnswer, guard: bool, at: Moment, again: Commit)
    requires Wf(before.graph) && target in before.graph && before.main in before.graph && Ancestor(before.graph, target, before.main)
    requires !before.dirty && base != target && IsMergeBase(before.graph, base, before.head, before.main)
    requires guard ==> !Ancestor(before.graph, target, base)
    requires RebaseResult(before, target, answer, at) && IsMergeBase(at.graph, again, at.head, at.main) && again != target
    ensures answer.Replayed? && KeptOnMain(Fetched(before.graph, before.main), answer.kept) && SharesChild(before, target)
    ensures guard ==> !Linear(before.graph, before.main)
  {
    hide Ancestor, IsMergeBase, Linear, Wf, Line, AllNew;
    RecheckPassesExactly(before, target, answer, at);
    KeptIsShared(before, target, answer, at);
    if guard && Linear(before.graph, before.main) {
      LinearMainPasses(Rebase(before, base, target), answer, at);
      assert false;
    }
  }

  const CROSSED: Graph := map[0 := [], 1 := [0], 2 := [1], 3 := [0], 4 := [2, 3], 5 := [2, 3]]

  lemma CrossedIsGraph()
    ensures Wf(CROSSED) && Line(CROSSED, 1, [2]) && AllNew(CROSSED, 2, [6])
  {
  }

  lemma BehindCrossed(x: Commit)
    ensures Ancestor(CROSSED, x, 1) <==> x in {0, 1}
    ensures Ancestor(CROSSED, x, 2) <==> x in {0, 1, 2}
    ensures Ancestor(CROSSED, x, 3) <==> x in {0, 3}
    ensures Ancestor(CROSSED, x, 4) <==> x in {0, 1, 2, 3, 4}
    ensures Ancestor(CROSSED, x, 5) <==> x in {0, 1, 2, 3, 5}
  {
    hide Ancestor;
    NoParent(CROSSED, 0, x);
    OneParent(CROSSED, 1, 0, x);
    OneParent(CROSSED, 2, 1, x);
    OneParent(CROSSED, 3, 0, x);
    TwoParents(CROSSED, 4, 2, 3, x);
    TwoParents(CROSSED, 5, 2, 3, x);
  }

  /** What is behind what in the crossed graph. */
  ghost predicate IsCrossed(g: Graph) {
    && Wf(g) && 1 in g && 4 in g && Line(g, 1, [2]) && AllNew(g, 2, [6])
    && forall x :: (Ancestor(g, x, 1) <==> x in {0, 1}) && (Ancestor(g, x, 2) <==> x in {0, 1, 2}) && (Ancestor(g, x, 3) <==> x in {0, 3})
         && (Ancestor(g, x, 4) <==> x in {0, 1, 2, 3, 4}) && (Ancestor(g, x, 5) <==> x in {0, 1, 2, 3, 5})
  }

  lemma CrossedIsCrossed()
    ensures IsCrossed(CROSSED)
  {
    CrossedIsGraph();
    assert 1 in CROSSED && 4 in CROSSED;
    hide Ancestor, Wf, Line, AllNew;
    forall x ensures
      && (Ancestor(CROSSED, x, 1) <==> x in {0, 1}) && (Ancestor(CROSSED, x, 2) <==> x in {0, 1, 2})
      && (Ancestor(CROSSED, x, 3) <==> x in {0, 3})
      && (Ancestor(CROSSED, x, 4) <==> x in {0, 1, 2, 3, 4}) && (Ancestor(CROSSED, x, 5) <==> x in {0, 1, 2, 3, 5})
    {
      BehindCrossed(x);
    }
  }

  /** 3 is a best common ancestor of the two merges. */
  lemma CrossedBase(g: Graph)
    requires IsCrossed(g)
    ensures IsMergeBase(g, 3, 5, 4)
  {
    hide Ancestor, Wf, Line, AllNew;
    assert Common(g, 3, 5, 4);
    forall x | Common(g, x, 5, 4) && Ancestor(g, 3, x) ensures x == 3 {
      AncestorIsOlder(g, 3, x);
    }
    BestCommon(g, 3, 5, 4);
  }

  lemma RefusalOn(g: Graph) returns (r: Rebase, answer: RebaseAnswer, at: Moment)
    requires IsCrossed(g)
    ensures r.before.graph == g && CalledFor(r, true) && RebaseResult(r.before, r.onto, answer, at)
    ensures !IsMergeBase(at.graph, r.onto, at.head, at.main)
  {
    hide Ancestor, IsMergeBase, Line, AllNew, Wf, RebasedGraph;
    var before := Moment(g, 5, 4, false);
    r, answer := Rebase(before, 3, 1), Replayed([2], [6]);
    at := Moment(RebasedGraph(g, 1, [2], [6]), RebasedTip(1, [2], [6]), 4, false);
    CrossedBase(g);
    RecheckPassesExactly(before, 1, answer, at);
  }

  /**
   * With merges on main the recheck can refuse: 1 is asked for, main (4) and the worktree (5) both merge 2 and 3, and
   * git names 3 as their base, which is not newer than 1. The rebase keeps 2 and replays 3 as 6, and then 2 is shared.
   */
  lemma RecheckCanRefuse() returns (r: Rebase, answer: RebaseAnswer, at: Moment)
    ensures r.before.graph == CROSSED && Wf(CROSSED) && CalledFor(r, true) && RebaseResult(r.before, r.onto, answer, at)
    ensures !IsMergeBase(at.graph, r.onto, at.head, at.main)
  {
    CrossedIsGraph();
    CrossedIsCrossed();
    hide IsCrossed, CalledFor, RebaseResult, IsMergeBase, Wf;
    r, answer, at := RefusalOn(CROSSED);
  }
}
