/**
 * Reserving ADR ids concurrently: any number of Reserve calls, each in steps (lock, scan, create,
 * write, unlock, or a crash anywhere), interleaved with writers that never take the lock and may
 * create, overwrite and remove files.
 */
module AdrReserve {
  import opened Text
  import opened Adr

  /** A file and the call that created it, if a Reserve call did. */
  datatype File = File(owner: Option<nat>, body: string)

  /** Where a Reserve call is. `stayed` is history: the files that were there from its lock until its scan. */
  datatype Phase =
    | Waiting
    | Holding
    | Scanned(stayed: set<string>, next: nat)
    | Created(stayed: set<string>, next: nat)
    | Previewed(next: nat)
    | Reserved(stayed: set<string>, next: nat)
    | Refused

  datatype Call = Call(slug: string, dryRun: bool, phase: Phase)

  /** `steady` and `shown` are history: the files that were there all the time, and at some time, since the lock was last taken. */
  datatype State = State(files: map<string, File>, holder: Option<nat>, calls: map<nat, Call>, steady: set<string>, shown: set<string>)

  datatype Event =
    | Begin(p: nat, slug: string, dryRun: bool)
    | Lock(p: nat)
    | Scan(p: nat, seen: set<string>, highest: nat)
    | Create(p: nat)
    | Write(p: nat, body: string, ok: bool)
    | Unlock(p: nat)
    | Crash(p: nat)
    | Intrude(name: string, body: string)
    | Remove(name: string)

  predicate HasNumber(s: State, p: nat) {
    p in s.calls && (s.calls[p].phase.Scanned? || s.calls[p].phase.Created? || s.calls[p].phase.Reserved?)
  }

  function Path(t: Tree, s: State, p: nat): string
    requires HasNumber(s, p)
  {
    FileName(t, s.calls[p].phase.next, s.calls[p].slug)
  }

  ghost predicate Enabled(t: Tree, s: State, e: Event) {
    match e
    case Begin(p, _, _) => p !in s.calls
    case Lock(p) => p in s.calls && s.calls[p].phase.Waiting? && s.holder == None
    // Reading a directory is not atomic: of the files that come or go meanwhile any may be seen or missed.
    case Scan(p, seen, highest) =>
      p in s.calls && s.calls[p].phase.Holding? && s.steady <= seen <= s.shown && IsHighest(seen, highest)
    case Create(p) => p in s.calls && s.calls[p].phase.Scanned?
    case Write(p, _, _) => p in s.calls && s.calls[p].phase.Created?
    case Unlock(p) => p in s.calls && s.holder == Some(p) && (s.calls[p].phase.Previewed? || s.calls[p].phase.Reserved? || s.calls[p].phase.Refused?)
    case Crash(p) => p in s.calls
    case Intrude(_, _) => true
    case Remove(name) => name in s.files
  }

  function At(s: State, p: nat, phase: Phase): State
    requires p in s.calls
  {
    s.(calls := s.calls[p := s.calls[p].(phase := phase)])
  }

  function Put(s: State, name: string, file: File): State {
    s.(files := s.files[name := file], shown := s.shown + {name})
  }

  ghost function After(t: Tree, s: State, e: Event): State
    requires Enabled(t, s, e)
  {
    match e
    case Begin(p, slug, dryRun) => s.(calls := s.calls[p := Call(slug, dryRun, Waiting)])
    case Lock(p) => At(s, p, Holding).(holder := Some(p), steady := s.files.Keys, shown := s.files.Keys)
    case Scan(p, _, highest) =>
      if s.calls[p].slug == "" then At(s, p, Refused)
      else if s.calls[p].dryRun then At(s, p, Previewed(highest + 1))
      else At(s, p, Scanned(s.steady, highest + 1))
    case Create(p) =>
      // O_EXCL: an existing file is never opened.
      if Path(t, s, p) in s.files then At(s, p, Refused)
      else Put(At(s, p, Created(s.calls[p].phase.stayed, s.calls[p].phase.next)), Path(t, s, p), File(Some(p), ""))
    case Write(p, body, ok) =>
      // The open file is written; if it was removed meanwhile, or another one stands there, that shows nowhere.
      var s' := At(s, p, if ok then Reserved(s.calls[p].phase.stayed, s.calls[p].phase.next) else Refused);
      var path := Path(t, s, p);
      if path in s.files && s.files[path].owner == Some(p) then s'.(files := s.files[path := s.files[path].(body := body)]) else s'
    case Unlock(p) => s.(holder := None)
    case Crash(p) =>
      (if s.calls[p].phase.Reserved? || s.calls[p].phase.Previewed? then s else At(s, p, Refused))
        .(holder := if s.holder == Some(p) then None else s.holder)
    case Intrude(name, body) => Put(s, name, if name in s.files then s.files[name].(body := body) else File(None, body))
    case Remove(name) => s.(files := s.files - {name}, steady := s.steady - {name})
  }

  /** A run over a corpus that already holds some files. */
  ghost predicate Run(t: Tree, states: seq<State>, events: seq<Event>) {
    && IsTree(t) && |states| == |events| + 1
    && states[0].calls == map[] && states[0].holder == None
    && forall i :: 0 <= i < |events| ==> Enabled(t, states[i], events[i]) && states[i + 1] == After(t, states[i], events[i])
  }

  // ----- the invariant

  predicate Critical(phase: Phase) {
    phase.Holding? || phase.Scanned? || phase.Created?
  }

  predicate HasReserved(s: State, p: nat) {
    p in s.calls && s.calls[p].phase.Reserved?
  }

  /** Who works under the lock holds it. */
  ghost predicate LockOk(s: State) {
    forall p :: p in s.calls && Critical(s.calls[p].phase) ==> s.holder == Some(p)
  }

  ghost predicate DryRunsOk(s: State) {
    forall p :: p in s.calls && s.calls[p].dryRun ==>
      s.calls[p].phase.Waiting? || s.calls[p].phase.Holding? || s.calls[p].phase.Previewed? || s.calls[p].phase.Refused?
  }

  /** The number of a call lies above the numbers of some files, and has at most five digits. */
  ghost predicate Above(names: set<string>, n: nat) {
    1 <= n <= 10000 && forall f :: f in names && ParseNumber(f).Some? ==> ParseNumber(f).value < n
  }

  /** Each call's number is above those of the files that stayed from its lock until its scan. */
  ghost predicate NumbersAbove(s: State) {
    forall p :: HasNumber(s, p) ==> Above(s.calls[p].phase.stayed, s.calls[p].phase.next)
  }

  ghost predicate Inv(s: State) {
    LockOk(s) && DryRunsOk(s) && NumbersAbove(s)
  }

  lemma StepOk(t: Tree, s: State, e: Event)
    requires Inv(s) && Enabled(t, s, e)
    ensures LockOk(After(t, s, e)) && DryRunsOk(After(t, s, e))
  {
    hide NumbersAbove, FileName, IsHighest;
  }

  lemma AboveStep(t: Tree, s: State, e: Event)
    requires Inv(s) && Enabled(t, s, e)
    ensures NumbersAbove(After(t, s, e))
  {
    hide LockOk, DryRunsOk, FileName, ParseNumber, IsHighest, Above;
    if e.Scan? {
      ScanIsAbove(s.steady, e.seen, e.highest);
    }
  }

  lemma ScanIsAbove(stayed: set<string>, seen: set<string>, highest: nat)
    requires stayed <= seen && IsHighest(seen, highest)
    ensures Above(stayed, highest + 1)
  {
    HighestIsUnique(seen, highest, highest);
    hide ParseNumber;
  }

  lemma {:induction false} EveryStateOk(t: Tree, states: seq<State>, events: seq<Event>, i: nat)
    requires Run(t, states, events) && i < |states|
    ensures Inv(states[i])
  {
    hide Enabled, After, LockOk, DryRunsOk, NumbersAbove;
    if i == 0 {
      EmptyIsOk(states[0]);
    } else {
      EveryStateOk(t, states, events, i - 1);
      StepOk(t, states[i - 1], events[i - 1]);
      AboveStep(t, states[i - 1], events[i - 1]);
    }
  }

  lemma EmptyIsOk(s: State)
    requires s.calls == map[]
    ensures Inv(s)
  {
  }

  // ----- where a number comes from

  /** Some file carries the last number that can be read back. */
  ghost predicate SeesLast(names: set<string>) {
    exists f :: f in names && ParseNumber(f) == Some(9999)
  }

  /** Two states tell the same number and slug for a call. */
  predicate SameNumber(s: State, s': State, p: nat) {
    HasNumber(s, p) && HasNumber(s', p) && s'.calls[p].phase.next == s.calls[p].phase.next && s'.calls[p].slug == s.calls[p].slug
  }

  /** A step gives a call its number only by its scan. */
  lemma NumberStep(t: Tree, s: State, e: Event, p: nat)
    requires Enabled(t, s, e) && HasNumber(After(t, s, e), p)
    ensures (e.Scan? && e.p == p && After(t, s, e).calls[p].phase.next == e.highest + 1) || SameNumber(s, After(t, s, e), p)
  {
    hide FileName, IsHighest;
  }

  /** A number comes from the call's scan, k, and stays; it is 10000 exactly if that saw a file numbered 9999. */
  lemma {:induction false} NumberIsScanned(t: Tree, states: seq<State>, events: seq<Event>, i: nat, p: nat) returns (k: nat)
    requires Run(t, states, events) && i < |states| && HasNumber(states[i], p)
    ensures k < i && events[k].Scan? && events[k].p == p && IsHighest(events[k].seen, events[k].highest)
    ensures IsHolding(states[k], p) && states[k].steady <= events[k].seen
    ensures states[i].calls[p].phase.next == events[k].highest + 1
    ensures states[i].calls[p].phase.next == 10000 <==> SeesLast(events[k].seen)
    ensures forall j :: k < j <= i ==> SameNumber(states[j], states[i], p)
  {
    hide FileName, IsHighest, After, SeesLast;
    NumberStep(t, states[i - 1], events[i - 1], p);
    if SameNumber(states[i - 1], states[i], p) {
      k := NumberIsScanned(t, states, events, i - 1, p);
    } else {
      k := i - 1;
      HighestIsLast(events[k].seen, events[k].highest);
    }
  }

  lemma HighestIsLast(names: set<string>, highest: nat)
    requires IsHighest(names, highest)
    ensures highest <= 9999 && (highest == 9999 <==> SeesLast(names))
  {
    HighestIsUnique(names, highest, highest);
    hide ParseNumber;
  }

  // ----- from the creation of a file to a later scan

  predicate HasFile(s: State, p: nat) {
    HasNumber(s, p) && !s.calls[p].phase.Scanned?
  }

  lemma FileStep(t: Tree, s: State, e: Event, p: nat)
    requires Enabled(t, s, e) && HasFile(After(t, s, e), p)
    ensures var s' := After(t, s, e);
      if HasFile(s, p) then SameNumber(s, s', p) else e == Create(p) && Path(t, s', p) in s'.files
  {
    hide FileName, IsHighest;
  }

  predicate IsHolding(s: State, p: nat) {
    p in s.calls && s.calls[p].phase.Holding?
  }

  lemma HoldStep(t: Tree, s: State, e: Event, p: nat)
    requires Enabled(t, s, e) && IsHolding(After(t, s, e), p) && !IsHolding(s, p)
    ensures e == Lock(p) && s.holder == None
  {
    hide FileName, IsHighest;
  }

  lemma SteadyStep(t: Tree, s: State, e: Event, name: string)
    requires Enabled(t, s, e) && e != Remove(name)
    ensures name in s.files ==> name in After(t, s, e).files && (e.Lock? ==> name in After(t, s, e).steady)
    ensures name in s.steady && s.holder.Some? ==> name in After(t, s, e).steady
  {
    hide FileName, IsHighest;
  }

  /** A call that is past its create step made its file in some step a. */
  lemma {:induction false} FileIsCreated(t: Tree, states: seq<State>, events: seq<Event>, i: nat, p: nat) returns (a: nat)
    requires Run(t, states, events) && i < |states| && HasFile(states[i], p)
    ensures a < i && events[a] == Create(p) && HasFile(states[a + 1], p)
    ensures SameNumber(states[a + 1], states[i], p) && Path(t, states[i], p) in states[a + 1].files
  {
    hide Enabled, After;
    FileStep(t, states[i - 1], events[i - 1], p);
    if HasFile(states[i - 1], p) {
      a := FileIsCreated(t, states, events, i - 1, p);
    } else {
      a := i - 1;
    }
  }

  /** Who holds the lock for its scan took it in some step l, and nobody since. */
  lemma {:induction false} LockIsTaken(t: Tree, states: seq<State>, events: seq<Event>, k: nat, q: nat) returns (l: nat)
    requires Run(t, states, events) && k < |states| && IsHolding(states[k], q)
    ensures l < k && events[l] == Lock(q) && states[l].holder == None
    ensures forall j :: l < j <= k ==> IsHolding(states[j], q)
  {
    hide Enabled, After;
    if IsHolding(states[k - 1], q) {
      l := LockIsTaken(t, states, events, k - 1, q);
    } else {
      HoldStep(t, states[k - 1], events[k - 1], q);
      l := k - 1;
    }
  }

  /** No step from a up to k removes the file. */
  ghost predicate NotRemoved(events: seq<Event>, a: nat, k: nat, name: string)
    requires k <= |events|
  {
    forall r :: a <= r < k ==> events[r] != Remove(name)
  }

  lemma {:induction false} FileStays(t: Tree, states: seq<State>, events: seq<Event>, a: nat, k: nat, name: string)
    requires Run(t, states, events) && a <= k < |states| && name in states[a].files && NotRemoved(events, a, k, name)
    ensures name in states[k].files
  {
    hide Enabled, After;
    if a < k {
      FileStays(t, states, events, a, k - 1, name);
      SteadyStep(t, states[k - 1], events[k - 1], name);
    }
  }

  /** What is there when a call takes the lock, and is not removed, is steady until its scan. */
  lemma {:induction false} SteadyStays(t: Tree, states: seq<State>, events: seq<Event>, l: nat, k: nat, q: nat, name: string)
    requires Run(t, states, events) && l < k < |states| && events[l] == Lock(q) && name in states[l].files
    requires forall j :: l < j <= k ==> IsHolding(states[j], q)
    requires NotRemoved(events, l, k, name)
    ensures name in states[k].steady
  {
    hide Enabled, After, DryRunsOk, NumbersAbove;
    SteadyStep(t, states[k - 1], events[k - 1], name);
    if l + 1 < k {
      SteadyStays(t, states, events, l, k - 1, q, name);
      EveryStateOk(t, states, events, k - 1);
      assert IsHolding(states[k - 1], q);
    }
  }

  // ----- the results

  /** The file of x is removed after x created it and before y scans. */
  ghost predicate RemovedBetween(t: Tree, states: seq<State>, events: seq<Event>, i: nat, x: nat, y: nat)
    requires i < |states| == |events| + 1 && HasNumber(states[i], x)
  {
    exists a, r, k :: 0 <= a < r < k < i && events[a] == Create(x) && events[r] == Remove(Path(t, states[i], x)) && events[k].Scan? && events[k].p == y
  }

  /** Of two calls with numbers the one that scanned later took the lock when the other had reserved. */
  lemma LaterLocksAfter(t: Tree, states: seq<State>, events: seq<Event>, i: nat, p: nat, q: nat, kp: nat, kq: nat) returns (l: nat)
    requires Run(t, states, events) && kp < kq < i < |states| && p != q && HasReserved(states[i], p)
    requires events[kp].Scan? && events[kp].p == p && events[kq].Scan? && events[kq].p == q
    requires forall j :: kp < j <= i ==> SameNumber(states[j], states[i], p)
    ensures kp < l < kq && events[l] == Lock(q) && HasReserved(states[l], p)
    ensures forall j :: l < j <= kq ==> IsHolding(states[j], q)
  {
    assert IsHolding(states[kp], p) && IsHolding(states[kq], q);
    hide Enabled, After, DryRunsOk, NumbersAbove;
    l := LockIsTaken(t, states, events, kq, q);
    EveryStateOk(t, states, events, kp);
    EveryStateOk(t, states, events, l);
    assert l > kp;
    assert SameNumber(states[l], states[i], p);
  }

  /** Two calls get the same number of at most four digits only if the file of the earlier is removed before the later scans. */
  lemma LaterNeedsRemoval(t: Tree, states: seq<State>, events: seq<Event>, i: nat, p: nat, q: nat, kp: nat, kq: nat)
    requires Run(t, states, events) && kp < kq < i < |states| && p != q && HasReserved(states[i], p) && HasReserved(states[i], q)
    requires events[kp].Scan? && events[kp].p == p && events[kq].Scan? && events[kq].p == q
    requires forall j :: kp < j <= i ==> SameNumber(states[j], states[i], p)
    requires IsHighest(events[kq].seen, events[kq].highest) && states[kq].steady <= events[kq].seen
    requires states[i].calls[p].phase.next == events[kq].highest + 1 <= 9999
    ensures RemovedBetween(t, states, events, i, p, q)
  {
    hide Enabled, After;
    var name := Path(t, states[i], p);
    var l := LaterLocksAfter(t, states, events, i, p, q, kp, kq);
    assert SameNumber(states[l], states[i], p);
    var a := FileIsCreated(t, states, events, l, p);
    assert name in states[a + 1].files;
    if NotRemoved(events, a + 1, kq, name) {
      FileStays(t, states, events, a + 1, l, name);
      SteadyStays(t, states, events, l, kq, q, name);
      SeenIsBelow(t, states[i].calls[p].phase.next, states[i].calls[p].slug, events[kq].seen, events[kq].highest);
      assert false;
    }
    var r :| a + 1 <= r < kq && events[r] == Remove(name);
  }

  lemma SeenIsBelow(t: Tree, n: nat, slug: string, seen: set<string>, highest: nat)
    requires IsTree(t) && IsHighest(seen, highest) && n <= 9999 && FileName(t, n, slug) in seen
    ensures n <= highest
  {
    NumberSurvivesFileName(t, n, slug);
    hide FileName, ParseNumber;
  }

  /**
   * However the calls interleave and whatever others do to the files: two calls reserve the same number only if it is
   * 10000, or if the file of one was removed after its creation and before the other's scan. And every reserved number is
   * above those of the files that stayed from the call's lock until its scan.
   */
  lemma ReservedNumbersAreDistinct(t: Tree, states: seq<State>, events: seq<Event>, i: nat, p: nat, q: nat)
    requires Run(t, states, events) && i < |states|
    requires HasReserved(states[i], p) && HasReserved(states[i], q) && p != q
    ensures states[i].calls[p].phase.next == states[i].calls[q].phase.next ==>
              || states[i].calls[p].phase.next == 10000
              || RemovedBetween(t, states, events, i, p, q) || RemovedBetween(t, states, events, i, q, p)
    ensures Above(states[i].calls[p].phase.stayed, states[i].calls[p].phase.next)
  {
    hide Enabled, After, LockOk, Above, IsHighest, SeesLast, RemovedBetween;
    EveryStateOk(t, states, events, i);
    var kp := NumberIsScanned(t, states, events, i, p);
    var kq := NumberIsScanned(t, states, events, i, q);
    HighestIsLast(events[kp].seen, events[kp].highest);
    if states[i].calls[p].phase.next == states[i].calls[q].phase.next <= 9999 {
      if kp < kq {
        LaterNeedsRemoval(t, states, events, i, p, q, kp, kq);
      } else {
        LaterNeedsRemoval(t, states, events, i, q, p, kq, kp);
      }
    }
  }

  /** As long as nobody removes a file that a call reserved, numbers of at most four digits are distinct and stay on disk. */
  lemma DistinctWithoutRemovals(t: Tree, states: seq<State>, events: seq<Event>, i: nat, p: nat, q: nat)
    requires Run(t, states, events) && i < |states|
    requires HasReserved(states[i], p) && HasReserved(states[i], q) && p != q
    requires NotRemoved(events, 0, i, Path(t, states[i], p)) && NotRemoved(events, 0, i, Path(t, states[i], q))
    ensures states[i].calls[p].phase.next == states[i].calls[q].phase.next ==> states[i].calls[p].phase.next == 10000
    ensures Path(t, states[i], p) in states[i].files
  {
    hide Enabled, After, Above;
    ReservedNumbersAreDistinct(t, states, events, i, p, q);
    var a := FileIsCreated(t, states, events, i, p);
    FileStays(t, states, events, a + 1, i, Path(t, states[i], p));
  }

  /**
   * A call reserves 10000 if and only if its scan saw a file numbered 9999. Otherwise its number has at most four digits,
   * and another call reserves the same only with a removal in between.
   */
  lemma ReservedExactly(t: Tree, states: seq<State>, events: seq<Event>, i: nat, p: nat) returns (k: nat)
    requires Run(t, states, events) && i < |states| && HasReserved(states[i], p)
    ensures k < i && events[k].Scan? && events[k].p == p
    ensures IsHolding(states[k], p) && states[k].steady <= events[k].seen
    ensures states[i].calls[p].phase.next == 10000 <==> SeesLast(events[k].seen)
    ensures !SeesLast(events[k].seen) ==>
              && states[i].calls[p].phase.next <= 9999
              && forall q :: q != p && HasReserved(states[i], q) && states[i].calls[q].phase.next == states[i].calls[p].phase.next ==>
                   RemovedBetween(t, states, events, i, p, q) || RemovedBetween(t, states, events, i, q, p)
  {
    hide FileName, IsHighest, After, SeesLast, Enabled, RemovedBetween;
    k := NumberIsScanned(t, states, events, i, p);
    HighestIsLast(events[k].seen, events[k].highest);
    forall q | q != p && HasReserved(states[i], q) && states[i].calls[q].phase.next == states[i].calls[p].phase.next <= 9999
      ensures RemovedBetween(t, states, events, i, p, q) || RemovedBetween(t, states, events, i, q, p)
    {
      ReservedNumbersAreDistinct(t, states, events, i, p, q);
    }
  }

  /** When a reserved number comes back: a call gets a number up to n exactly if its scan, k, saw no file numbered n or more. */
  lemma NumberComesBackExactly(t: Tree, states: seq<State>, events: seq<Event>, i: nat, q: nat, n: nat) returns (k: nat)
    requires Run(t, states, events) && i < |states| && HasReserved(states[i], q) && n >= 1
    ensures k < i && events[k].Scan? && events[k].p == q
    ensures states[i].calls[q].phase.next <= n <==>
            forall f :: f in events[k].seen && ParseNumber(f).Some? ==> ParseNumber(f).value < n
  {
    hide FileName, ParseNumber, After, SeesLast, Enabled;
    k := NumberIsScanned(t, states, events, i, q);
  }

  /** At most one call is between its scan and its write. */
  lemma OneCallAtATime(t: Tree, states: seq<State>, events: seq<Event>, i: nat, p: nat, q: nat)
    requires Run(t, states, events) && i < |states|
    requires p in states[i].calls && Critical(states[i].calls[p].phase) && q in states[i].calls && Critical(states[i].calls[q].phase)
    ensures p == q
  {
    hide Enabled, After, NumbersAbove, Critical;
    EveryStateOk(t, states, events, i);
  }

  /** No call removes a file, and none changes a file that it did not create itself; a dry run changes none. */
  lemma NothingIsOverwritten(t: Tree, states: seq<State>, events: seq<Event>, i: nat, name: string)
    requires Run(t, states, events) && i < |events| && name in states[i].files
    ensures events[i] != Remove(name) ==> name in states[i + 1].files && states[i + 1].files[name].owner == states[i].files[name].owner
    ensures events[i] != Remove(name) && states[i + 1].files[name] != states[i].files[name] ==>
              || (events[i].Intrude? && events[i].name == name)
              || (events[i].Write? && states[i].files[name].owner == Some(events[i].p) && !states[i].calls[events[i].p].dryRun)
  {
    hide FileName, IsHighest, LockOk, NumbersAbove;
    EveryStateOk(t, states, events, i);
  }

  /** A dry run never reserves a number and never owns a file it could write. */
  lemma DryRunsConsumeNothing(t: Tree, states: seq<State>, events: seq<Event>, i: nat, p: nat)
    requires Run(t, states, events) && i < |states| && p in states[i].calls && states[i].calls[p].dryRun
    ensures !HasReserved(states[i], p)
    ensures i < |events| && events[i] in {Lock(p), Unlock(p), Crash(p)} ==> states[i + 1].files == states[i].files
    ensures i < |events| && (events[i].Create? || events[i].Write?) ==> events[i].p != p
  {
    hide FileName, IsHighest, LockOk, NumbersAbove;
    EveryStateOk(t, states, events, i);
  }

  // ----- numbers that come back

  /**
   * In a corpus whose highest number is 9999 every reservation gets 10000, which no later scan
   * reads: two calls, one after the other, reserve the same number.
   */
  lemma NumbersRunOut(t: Tree, last: string) returns (states: seq<State>, events: seq<Event>)
    requires IsTree(t)
    ensures Run(t, states, events) && |events| == 12
    ensures states[0].files.Keys == {FileName(t, 9999, last)}
    ensures HasReserved(states[12], 1) && HasReserved(states[12], 2)
    ensures states[12].calls[1].phase.next == 10000 == states[12].calls[2].phase.next
  {
    hide Enabled, After;
    var first, a := FileName(t, 9999, last), FileName(t, 10000, "a");
    var s0 := State(map[first := File(None, "")], None, map[], {}, {});
    HighestAfterWrap(t, last);
    hide IsHighest, FileName;
    var one, mid := ReserveAlone(t, s0, 1, "a", 9999);
    var two, end := ReserveAlone(t, mid[6], 2, "b", 9999);
    states, events := Joined(t, mid, one, end, two);
  }

  /** In an empty corpus a call gets 1; its file is removed, and the next call gets 1 again. */
  lemma RemovedNumberReturns(t: Tree) returns (states: seq<State>, events: seq<Event>)
    requires IsTree(t)
    ensures Run(t, states, events) && |events| == 13 && states[0].files == map[]
    ensures events[6] == Remove(FileName(t, 1, "a"))
    ensures HasReserved(states[13], 1) && HasReserved(states[13], 2)
    ensures states[13].calls[1].phase.next == 1 == states[13].calls[2].phase.next
  {
    var s0 := State(map[], None, map[], {}, {});
    var a := FileName(t, 1, "a");
    assert IsHighest({}, 0);
    hide Enabled, After, IsHighest, FileName;
    var one, mid := ReserveAlone(t, s0, 1, "a", 0);
    var e := Remove(a);
    var gone := Removed(t, mid[6], a);
    assert gone.files.Keys == {};
    var two, end := ReserveAlone(t, gone, 2, "b", 0);
    states, events := Joined(t, mid + [gone], one + [e], end, two);
  }

  lemma Removed(t: Tree, s: State, name: string) returns (s': State)
    requires name in s.files
    ensures Enabled(t, s, Remove(name)) && s' == After(t, s, Remove(name))
    ensures s'.files == s.files - {name} && s'.calls == s.calls && s'.holder == s.holder
  {
    s' := After(t, s, Remove(name));
  }

  lemma HighestAfterWrap(t: Tree, last: string)
    requires IsTree(t)
    ensures var first, a, b := FileName(t, 9999, last), FileName(t, 10000, "a"), FileName(t, 10000, "b");
      IsHighest({first}, 9999) && IsHighest({first, a}, 9999) && a != first && b != first && a != b
  {
    NumberSurvivesFileName(t, 9999, last);
    NumberSurvivesFileName(t, 10000, "a");
    NumberSurvivesFileName(t, 10000, "b");
    DifferentSlugs(t, 10000);
    hide FileName, ParseNumber;
  }

  /** Two pieces of a run, the second starting where the first ended. */
  lemma Joined(t: Tree, mid: seq<State>, one: seq<Event>, end: seq<State>, two: seq<Event>) returns (states: seq<State>, events: seq<Event>)
    requires |mid| == |one| + 1 && |end| == |two| + 1 && mid[|one|] == end[0]
    requires IsTree(t) && mid[0].calls == map[] && mid[0].holder == None
    requires forall i :: 0 <= i < |one| ==> Enabled(t, mid[i], one[i]) && mid[i + 1] == After(t, mid[i], one[i])
    requires forall i :: 0 <= i < |two| ==> Enabled(t, end[i], two[i]) && end[i + 1] == After(t, end[i], two[i])
    ensures Run(t, states, events) && events == one + two && states[0] == mid[0] && states[|events|] == end[|two|]
  {
    hide Enabled, After;
    states, events := mid + end[1..], one + two;
    forall i | 0 <= i < |events| ensures Enabled(t, states[i], events[i]) && states[i + 1] == After(t, states[i], events[i]) {
      if i < |one| {
        assert events[i] == one[i] && states[i] == mid[i] && states[i + 1] == mid[i + 1];
      } else {
        var j := i - |one|;
        assert events[i] == two[j] && states[i] == end[j] && states[i + 1] == end[j + 1];
      }
    }
  }

  lemma DifferentSlugs(t: Tree, n: nat)
    ensures FileName(t, n, "a") != FileName(t, n, "b")
  {
    hide Pad4;
    var head := t.filePrefix + Pad4(n) + "-";
    assert FileName(t, n, "a")[|head|] == 'a' && FileName(t, n, "b")[|head|] == 'b';
  }

  /** One call run from start to end with nobody else about. */
  lemma ReserveAlone(t: Tree, s: State, p: nat, slug: string, highest: nat) returns (events: seq<Event>, states: seq<State>)
    requires p !in s.calls && s.holder == None && slug != ""
    requires IsHighest(s.files.Keys, highest) && FileName(t, highest + 1, slug) !in s.files
    ensures |events| == 6 && |states| == 7 && states[0] == s
    ensures forall i :: 0 <= i < 6 ==> Enabled(t, states[i], events[i]) && states[i + 1] == After(t, states[i], events[i])
    ensures states[6].holder == None && states[6].files.Keys == s.files.Keys + {FileName(t, highest + 1, slug)}
    ensures states[6].calls == s.calls[p := Call(slug, false, Reserved(s.files.Keys, highest + 1))]
  {
    hide FileName, IsHighest;
    var seen := s.files.Keys;
    var e0, e1, e2 := Begin(p, slug, false), Lock(p), Scan(p, seen, highest);
    var e3, e4, e5 := Create(p), Write(p, "", true), Unlock(p);
    var s1 := After(t, s, e0);
    var s2 := After(t, s1, e1);
    var s3 := After(t, s2, e2);
    var s4 := After(t, s3, e3);
    var s5 := After(t, s4, e4);
    var s6 := After(t, s5, e5);
    events, states := [e0, e1, e2, e3, e4, e5], [s, s1, s2, s3, s4, s5, s6];
    assert s6.calls == s.calls[p := Call(slug, false, Reserved(seen, highest + 1))];
  }
}
