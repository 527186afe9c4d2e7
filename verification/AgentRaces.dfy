/** The spawner, the reaper, pollers and stoppers saving agent records at the same time, step by step. */
module AgentRaces {
  import opened Text
  import opened AgentRecords

  datatype Role = Spawner | Reaper | Poller | Stopper

  /** Where one of them is with the record it holds; `temp` is the temporary file of its save. Who is gone holds it no more. */
  datatype Phase = Holding | Saving | Created(temp: string) | Written(temp: string) | Closed(temp: string) | Saved | GaveUp | Gone

  datatype Process = Process(role: Role, record: Record, phase: Phase)

  datatype State = State(files: map<string, Content>, procs: map<nat, Process>)

  datatype Event =
    | Spawn(p: nat, record: Record)
    | Load(p: nat, role: Role, id: string)
    | Take(p: nat, role: Role, from: nat)
    | Wait(p: nat, code: Option<int>, now: int)
    | Poll(p: nat, alive: bool, now: int)
    | Halt(p: nat, now: int)
    | Create(p: nat, random: string)
    | Write(p: nat, ok: bool, removed: bool)
    | Close(p: nat, ok: bool, removed: bool)
    | Rename(p: nat, ok: bool, removed: bool)
    | Crash(p: nat)

  predicate In(s: State, p: nat, role: Role) {
    p in s.procs && s.procs[p].role == role && s.procs[p].phase.Holding?
  }

  predicate Enabled(s: State, e: Event) {
    match e
    // A new agent's id is nobody's yet.
    case Spawn(p, r) =>
      p !in s.procs && RecordName(r.id) !in s.files && (forall q | q in s.procs :: s.procs[q].record.id != r.id)
      && (r.status.Running? || r.status.Failed?) && r.exitCode == None
    case Load(p, role, id) => p !in s.procs && role != Spawner && RecordName(id) in s.files && s.files[RecordName(id)].Whole?
    // Whoever is done may go on with the record in hand, as a stop does after a poll, and a caller after a spawn.
    case Take(p, role, q) => p !in s.procs && role != Spawner && q in s.procs && Done(s.procs[q].phase)
    case Wait(p, _, _) => In(s, p, Reaper)
    case Poll(p, _, _) => In(s, p, Poller)
    case Halt(p, _) => In(s, p, Stopper)
    case Create(p, random) => p in s.procs && s.procs[p].phase.Saving? && TempName(s.procs[p].record.id, random) !in s.files
    case Write(p, _, _) => p in s.procs && s.procs[p].phase.Created?
    case Close(p, _, _) => p in s.procs && s.procs[p].phase.Written?
    case Rename(p, _, _) => p in s.procs && s.procs[p].phase.Closed?
    case Crash(p) => p in s.procs
  }

  predicate Done(ph: Phase) {
    ph.Saved? || ph.GaveUp?
  }

  function At(s: State, p: nat, phase: Phase): State
    requires p in s.procs
  {
    s.(procs := s.procs[p := s.procs[p].(phase := phase)])
  }

  /** A save that fails removes its temporary file, if it can. */
  function Fail(s: State, p: nat, temp: string, removed: bool): State
    requires p in s.procs
  {
    At(s, p, GaveUp).(files := if removed then s.files - {temp} else s.files)
  }

  function Next(s: State, p: nat, next: Option<Record>): State
    requires p in s.procs
  {
    if next.None? then At(s, p, GaveUp)
    else s.(procs := s.procs[p := s.procs[p].(record := next.value, phase := Saving)])
  }

  function After(s: State, e: Event): State
    requires Enabled(s, e)
  {
    match e
    case Spawn(p, r) => s.(procs := s.procs[p := Process(Spawner, r, Saving)])
    case Load(p, role, id) => s.(procs := s.procs[p := Process(role, s.files[RecordName(id)].record, Holding)])
    case Take(p, role, q) => s.(procs := s.procs[p := Process(role, s.procs[q].record, Holding)])
    case Wait(p, code, now) => Next(s, p, Reaped(s.procs[p].record, code, now))
    case Poll(p, alive, now) => Next(s, p, Polled(s.procs[p].record, alive, now))
    case Halt(p, now) => Next(s, p, Some(Stopped(s.procs[p].record, now)))
    case Create(p, random) =>
      var temp := TempName(s.procs[p].record.id, random);
      At(s, p, Created(temp)).(files := s.files[temp := Part])
    case Write(p, ok, removed) =>
      var temp := s.procs[p].phase.temp;
      if ok then At(s, p, Written(temp)).(files := s.files[temp := Whole(s.procs[p].record)]) else Fail(s, p, temp, removed)
    case Close(p, ok, removed) =>
      var temp := s.procs[p].phase.temp;
      if ok then At(s, p, Closed(temp)) else Fail(s, p, temp, removed)
    case Rename(p, ok, removed) =>
      var temp := s.procs[p].phase.temp;
      // A rename finds its source or it fails.
      if ok && temp in s.files
      then At(s, p, Saved).(files := s.files[RecordName(s.procs[p].record.id) := s.files[temp]] - {temp})
      else Fail(s, p, temp, removed)
    case Crash(p) => At(s, p, Gone)
  }

  /** A state directory before anybody works on it: its records are whole, each under its own id, with an exit code only after the exit. */
  ghost predicate Init(s: State) {
    s.procs == map[] && FilesWhole(s) && NoCodeYet(s)
  }

  ghost predicate Run(states: seq<State>, events: seq<Event>) {
    && |states| == |events| + 1 && Init(states[0])
    && forall i :: 0 <= i < |events| ==> Enabled(states[i], events[i]) && states[i + 1] == After(states[i], events[i])
  }

  // ----- the invariant

  predicate HasTemp(ph: Phase) {
    ph.Created? || ph.Written? || ph.Closed?
  }

  predicate Pending(ph: Phase) {
    HasTemp(ph) || ph.Saving?
  }

  /** A record file holds one complete record of its agent. */
  ghost predicate FilesWhole(s: State) {
    forall id :: RecordName(id) in s.files ==> s.files[RecordName(id)].Whole? && s.files[RecordName(id)].record.id == id
  }

  /** Who saves still has its temporary file, complete once it is written. */
  ghost predicate TempsThere(s: State) {
    forall p :: p in s.procs && HasTemp(s.procs[p].phase) ==>
      var temp := s.procs[p].phase.temp;
      && temp in s.files && HasSuffix(temp, ".tmp")
      && (!s.procs[p].phase.Created? ==> s.files[temp] == Whole(s.procs[p].record))
  }

  /** No two save through the same file. */
  ghost predicate TempsApart(s: State) {
    forall p, q :: p in s.procs && q in s.procs && p != q && HasTemp(s.procs[p].phase) && HasTemp(s.procs[q].phase) ==>
      s.procs[p].phase.temp != s.procs[q].phase.temp
  }

  /** Only a first save may say "running": then there is no record yet and nobody else holds one of this agent. */
  ghost predicate RunningIsFirst(s: State) {
    forall p :: p in s.procs && Pending(s.procs[p].phase) && s.procs[p].record.status.Running? ==>
      && RecordName(s.procs[p].record.id) !in s.files
      && forall q :: q in s.procs && q != p ==> s.procs[q].record.id != s.procs[p].record.id
  }

  /** All records of an agent tell the same about its launch. */
  ghost predicate LaunchAgreed(s: State) {
    && (forall p, q :: p in s.procs && q in s.procs && s.procs[p].record.id == s.procs[q].record.id ==>
          s.procs[p].record.launch == s.procs[q].record.launch)
    && (forall p :: p in s.procs && RecordName(s.procs[p].record.id) in s.files ==>
          s.files[RecordName(s.procs[p].record.id)].Whole? &&
          s.files[RecordName(s.procs[p].record.id)].record.launch == s.procs[p].record.launch)
  }

  /** A record that says "running" has no exit code; and a spawner never just holds a record. */
  ghost predicate NoCodeYet(s: State) {
    && (forall p :: p in s.procs ==> CodeOk(s.procs[p].record) && !(s.procs[p].role.Spawner? && s.procs[p].phase.Holding?))
    && (forall id :: RecordName(id) in s.files && s.files[RecordName(id)].Whole? ==> CodeOk(s.files[RecordName(id)].record))
  }

  predicate CodeOk(r: Record) {
    r.status.Running? ==> r.exitCode == None
  }

  ghost predicate Inv(s: State) {
    FilesWhole(s) && TempsThere(s) && TempsApart(s) && RunningIsFirst(s) && LaunchAgreed(s) && NoCodeYet(s)
  }

  lemma TempIsNoRecord(temp: string, id: string)
    requires HasSuffix(temp, ".tmp")
    ensures temp != RecordName(id)
  {
    var r := RecordName(id);
    assert temp[|temp| - 4..][3] == 'p' && temp[|temp| - 1] == 'p' && r[|r| - 1] == 'n';
  }

  lemma TempsAreNoRecords()
    ensures forall temp, id :: HasSuffix(temp, ".tmp") ==> temp != RecordName(id)
    ensures forall id, other :: RecordName(id) == RecordName(other) ==> id == other
    ensures forall id, random :: HasSuffix(TempName(id, random), ".tmp")
  {
    forall temp, id | HasSuffix(temp, ".tmp") ensures temp != RecordName(id) { TempIsNoRecord(temp, id); }
    forall id, other ensures RecordName(id) == RecordName(other) ==> id == other { NamesDiffer(id, "", other); }
    forall id, random ensures HasSuffix(TempName(id, random), ".tmp") { NamesDiffer(id, random, id); }
  }

  lemma StepFilesWhole(s: State, e: Event)
    requires Inv(s) && Enabled(s, e)
    ensures FilesWhole(After(s, e))
  {
    TempsAreNoRecords();
    hide HasSuffix, TempName, RecordName, Polled, Reaped, Stopped, TempsApart, RunningIsFirst, LaunchAgreed, NoCodeYet;
  }

  lemma StepTempsThere(s: State, e: Event)
    requires Inv(s) && Enabled(s, e)
    ensures TempsThere(After(s, e))
  {
    TempsAreNoRecords();
    hide HasSuffix, TempName, RecordName, Polled, Reaped, Stopped, FilesWhole, RunningIsFirst, LaunchAgreed, NoCodeYet;
  }

  lemma StepTempsApart(s: State, e: Event)
    requires Inv(s) && Enabled(s, e)
    ensures TempsApart(After(s, e))
  {
    hide HasSuffix, TempName, RecordName, Polled, Reaped, Stopped, FilesWhole, RunningIsFirst, LaunchAgreed, NoCodeYet;
  }

  predicate IsEntry(e: Event) {
    e.Spawn? || e.Load? || e.Take?
  }

  predicate IsDecision(e: Event) {
    e.Wait? || e.Poll? || e.Halt?
  }

  lemma EntryRunningIsFirst(s: State, e: Event)
    requires Inv(s) && Enabled(s, e) && IsEntry(e)
    ensures RunningIsFirst(After(s, e))
  {
    hide HasSuffix, RecordName, TempsApart, TempsThere, LaunchAgreed, NoCodeYet;
  }

  lemma DecisionRunningIsFirst(s: State, e: Event)
    requires Inv(s) && Enabled(s, e) && IsDecision(e)
    ensures RunningIsFirst(After(s, e))
  {
    hide HasSuffix, RecordName, TempsApart, TempsThere, LaunchAgreed, FilesWhole, NoCodeYet;
  }

  lemma SaveRunningIsFirst(s: State, e: Event)
    requires Inv(s) && Enabled(s, e) && !IsEntry(e) && !IsDecision(e)
    ensures RunningIsFirst(After(s, e))
  {
    TempsAreNoRecords();
    hide HasSuffix, TempName, RecordName, TempsApart, LaunchAgreed, FilesWhole, NoCodeYet;
  }

  lemma StepRunningIsFirst(s: State, e: Event)
    requires Inv(s) && Enabled(s, e)
    ensures RunningIsFirst(After(s, e))
  {
    hide *;
    if IsEntry(e) {
      EntryRunningIsFirst(s, e);
    } else if IsDecision(e) {
      DecisionRunningIsFirst(s, e);
    } else {
      SaveRunningIsFirst(s, e);
    }
  }

  lemma EntryLaunchAgreed(s: State, e: Event)
    requires Inv(s) && Enabled(s, e) && IsEntry(e)
    ensures LaunchAgreed(After(s, e))
  {
    hide HasSuffix, RecordName, TempsApart, TempsThere, RunningIsFirst, NoCodeYet;
    if e.Load? {
      assert s.files[RecordName(e.id)].record.id == e.id;
    }
  }

  /** The records at hand keep id and launch. */
  lemma DecisionLaunchAgreed(s: State, e: Event)
    requires Inv(s) && Enabled(s, e) && IsDecision(e)
    ensures LaunchAgreed(After(s, e))
  {
    var s' := After(s, e);
    assert s'.procs.Keys == s.procs.Keys && s'.files == s.files;
    forall q | q in s.procs ensures s'.procs[q].record.id == s.procs[q].record.id && s'.procs[q].record.launch == s.procs[q].record.launch {}
    SameLaunches(s, s');
  }

  /** Only record files matter, and who holds what. */
  lemma SameLaunches(s: State, s': State)
    requires LaunchAgreed(s) && s'.procs.Keys == s.procs.Keys
    requires forall q :: q in s.procs ==> s'.procs[q].record.id == s.procs[q].record.id && s'.procs[q].record.launch == s.procs[q].record.launch
    requires forall id :: RecordName(id) in s'.files ==>
               (RecordName(id) in s.files && s'.files[RecordName(id)] == s.files[RecordName(id)])
               || exists p :: p in s.procs && s'.files[RecordName(id)] == Whole(s.procs[p].record) && s.procs[p].record.id == id
    ensures LaunchAgreed(s')
  {
    hide RecordName;
  }

  lemma SaveLaunchAgreed(s: State, e: Event)
    requires Inv(s) && Enabled(s, e) && !IsEntry(e) && !IsDecision(e)
    ensures LaunchAgreed(After(s, e))
  {
    TempsAreNoRecords();
    hide HasSuffix, TempName, RecordName, TempsApart, RunningIsFirst, LaunchAgreed, FilesWhole, NoCodeYet;
    SameLaunches(s, After(s, e));
  }

  lemma StepLaunchAgreed(s: State, e: Event)
    requires Inv(s) && Enabled(s, e)
    ensures LaunchAgreed(After(s, e))
  {
    hide *;
    if IsEntry(e) {
      EntryLaunchAgreed(s, e);
    } else if IsDecision(e) {
      DecisionLaunchAgreed(s, e);
    } else {
      SaveLaunchAgreed(s, e);
    }
  }

  lemma {:induction false} InvHolds(states: seq<State>, events: seq<Event>, i: nat)
    requires Run(states, events) && i < |states|
    ensures Inv(states[i])
  {
    hide Enabled, After, FilesWhole, TempsThere, TempsApart, RunningIsFirst, LaunchAgreed, NoCodeYet;
    if i == 0 {
      InitInv(states[0]);
    } else {
      InvHolds(states, events, i - 1);
      StepInv(states[i - 1], events[i - 1]);
    }
  }

  lemma StepInv(s: State, e: Event)
    requires Inv(s) && Enabled(s, e)
    ensures Inv(After(s, e))
  {
    hide Enabled, After, FilesWhole, TempsThere, TempsApart, RunningIsFirst, LaunchAgreed, NoCodeYet;
    StepFilesWhole(s, e);
    StepTempsThere(s, e);
    StepTempsApart(s, e);
    StepRunningIsFirst(s, e);
    StepLaunchAgreed(s, e);
    StepNoCodeYet(s, e);
  }

  lemma StepNoCodeYet(s: State, e: Event)
    requires Inv(s) && Enabled(s, e)
    ensures NoCodeYet(After(s, e))
  {
    TempsAreNoRecords();
    hide HasSuffix, TempName, RecordName, TempsApart, RunningIsFirst, LaunchAgreed;
  }

  lemma InitInv(s: State)
    requires Init(s)
    ensures Inv(s)
  {
  }

  // ----- what every run keeps

  /** A reader finds no record or one complete record of that agent. */
  lemma ReadersSeeWhole(states: seq<State>, events: seq<Event>, i: nat, id: string)
    requires Run(states, events) && i < |states| && RecordName(id) in states[i].files
    ensures states[i].files[RecordName(id)].Whole? && states[i].files[RecordName(id)].record.id == id
  {
    InvHolds(states, events, i);
    hide Run, TempsThere, TempsApart, RunningIsFirst, LaunchAgreed, NoCodeYet;
  }

  /** A save does not fail because of another: unless the rename itself is refused, it puts the record in place. */
  lemma RenamesSucceed(states: seq<State>, events: seq<Event>, i: nat, p: nat, removed: bool)
    requires Run(states, events) && i < |events| && events[i] == Rename(p, true, removed)
    ensures p in states[i].procs && p in states[i + 1].procs && states[i + 1].procs[p].phase == Saved
    ensures Stored(states[i + 1], states[i].procs[p].record.id) == Some(states[i].procs[p].record)
  {
    InvHolds(states, events, i);
    TempsAreNoRecords();
    hide HasSuffix, TempName, RecordName, TempsApart, RunningIsFirst, LaunchAgreed, FilesWhole, NoCodeYet;
  }

  /** The record of an agent as it is stored. */
  function Stored(s: State, id: string): Option<Record> {
    if RecordName(id) in s.files && s.files[RecordName(id)].Whole? then Some(s.files[RecordName(id)].record) else None
  }

  /** One step: what is stored stays, or is replaced by a record that does not say "running", of the same launch. */
  lemma StepStored(s: State, e: Event, id: string)
    requires Inv(s) && Enabled(s, e) && Stored(s, id).Some?
    ensures var before, after := Stored(s, id), Stored(After(s, e), id);
      after == before || (after.Some? && !after.value.status.Running? && after.value.launch == before.value.launch)
  {
    TempsAreNoRecords();
    hide HasSuffix, TempName, RecordName, TempsApart, Polled, Reaped, Stopped;
  }

  /** A record is never lost, its launch never changes, and once its status has left "running" it stays away. */
  lemma {:induction false} StatusNeverReturnsToRunning(states: seq<State>, events: seq<Event>, i: nat, j: nat, id: string)
    requires Run(states, events) && i <= j < |states| && Stored(states[i], id).Some?
    ensures Stored(states[j], id).Some? && Stored(states[j], id).value.launch == Stored(states[i], id).value.launch
    ensures !Stored(states[i], id).value.status.Running? ==> !Stored(states[j], id).value.status.Running?
    decreases j
  {
    hide Enabled, After, Inv, Stored, Init;
    if i < j {
      StatusNeverReturnsToRunning(states, events, i, j - 1, id);
      InvHolds(states, events, j - 1);
      StepStored(states[j - 1], events[j - 1], id);
    }
  }

  // ----- what records tell

  /** An exited agent's record has the time of its exit, a failed one's the reason, and a running one's neither time nor code. */
  predicate Tells(r: Record) {
    && (r.status.Exited? ==> r.exitedAt.Some?)
    && (r.status.Failed? ==> r.error != "")
    && (r.status.Running? ==> r.exitedAt == None && r.exitCode == None)
  }

  ghost predicate AllTell(s: State) {
    && (forall p :: p in s.procs ==> Tells(s.procs[p].record))
    && (forall id :: RecordName(id) in s.files && s.files[RecordName(id)].Whole? ==> Tells(s.files[RecordName(id)].record))
  }

  lemma StepTells(s: State, e: Event)
    requires Inv(s) && Enabled(s, e) && AllTell(s) && (e.Spawn? ==> Tells(e.record))
    ensures AllTell(After(s, e))
  {
    hide *;
    if IsDecision(e) {
      DecisionTells(s, e);
    } else {
      OtherTells(s, e);
    }
  }

  lemma DecisionTells(s: State, e: Event)
    requires Enabled(s, e) && AllTell(s) && IsDecision(e)
    ensures AllTell(After(s, e))
  {
    hide RecordName;
    assert After(s, e).files == s.files;
  }

  lemma OtherTells(s: State, e: Event)
    requires Inv(s) && Enabled(s, e) && AllTell(s) && (e.Spawn? ==> Tells(e.record)) && !IsDecision(e)
    ensures AllTell(After(s, e))
  {
    TempsAreNoRecords();
    hide HasSuffix, TempName, RecordName, TempsApart, RunningIsFirst, LaunchAgreed, FilesWhole, NoCodeYet, Tells;
  }

  /** In any interleaving, if the records there were and those of new agents do, every record held or stored tells what it should. */
  lemma {:induction false} RecordsTell(states: seq<State>, events: seq<Event>, i: nat)
    requires Run(states, events) && i < |states| && AllTell(states[0])
    requires forall j :: 0 <= j < i && events[j].Spawn? ==> Tells(events[j].record)
    ensures AllTell(states[i])
  {
    hide Enabled, After, Inv, Init, AllTell, Tells;
    if i > 0 {
      RecordsTell(states, events, i - 1);
      InvHolds(states, events, i - 1);
      StepTells(states[i - 1], events[i - 1]);
    }
  }

  // ----- the exit code

  /** Where some events lead, if each of them can happen in turn. */
  function Exec(s: State, events: seq<Event>): Option<State>
    decreases |events|
  {
    if events == [] then Some(s)
    else if Enabled(s, events[0]) then Exec(After(s, events[0]), events[1..])
    else None
  }

  function Trace(s: State, events: seq<Event>): (states: seq<State>)
    requires Exec(s, events).Some?
    ensures |states| == |events| + 1 && states[0] == s
    decreases |events|
  {
    if events == [] then [s] else [s] + Trace(After(s, events[0]), events[1..])
  }

  lemma {:induction false} TraceIsRun(s: State, events: seq<Event>)
    requires Exec(s, events).Some?
    ensures var states := Trace(s, events);
      && states[|events|] == Exec(s, events).value
      && forall i :: 0 <= i < |events| ==> Enabled(states[i], events[i]) && states[i + 1] == After(states[i], events[i])
    decreases |events|
  {
    hide Enabled, After;
    if events != [] {
      var rest := Trace(After(s, events[0]), events[1..]);
      TraceIsRun(After(s, events[0]), events[1..]);
      forall i | 0 <= i < |events|
        ensures Enabled(Trace(s, events)[i], events[i]) && Trace(s, events)[i + 1] == After(Trace(s, events)[i], events[i])
      {
        if i > 0 {
          assert Enabled(rest[i - 1], events[1..][i - 1]);
        }
      }
    }
  }

  lemma {:induction false} TraceOfConcat(s: State, a: seq<Event>, b: seq<Event>)
    requires Exec(s, a).Some?
    ensures Exec(s, a + b) == Exec(Exec(s, a).value, b)
    ensures Exec(s, a + b).Some? ==> Trace(s, a + b)[|a|] == Exec(s, a).value
    decreases |a|
  {
    hide Enabled, After;
    if a == [] {
      assert a + b == b;
    } else {
      assert (a + b)[1..] == a[1..] + b;
      TraceOfConcat(After(s, a[0]), a[1..], b);
    }
  }

  /** The whole of a save, with nobody in between. */
  function SaveEvents(p: nat, random: string): seq<Event> {
    [Create(p, random), Write(p, true, true), Close(p, true, true), Rename(p, true, true)]
  }

  lemma First(s: State, e: Event, rest: seq<Event>)
    requires Enabled(s, e)
    ensures Exec(s, [e] + rest) == Exec(After(s, e), rest)
  {
    hide Enabled, After;
    assert ([e] + rest)[1..] == rest;
  }

  lemma SaveAlone(s: State, p: nat, random: string)
    requires p in s.procs && s.procs[p].phase.Saving? && TempName(s.procs[p].record.id, random) !in s.files
    ensures Exec(s, SaveEvents(p, random)) ==
            Some(At(s, p, Saved).(files := s.files[RecordName(s.procs[p].record.id) := Whole(s.procs[p].record)]))
  {
    TempsAreNoRecords();
    hide HasSuffix, TempName, RecordName, Exec;
    var r := s.procs[p].record;
    var temp := TempName(r.id, random);
    var write, close, rename := Write(p, true, true), Close(p, true, true), Rename(p, true, true);
    var s1 := After(s, Create(p, random));
    var s2 := After(s1, write);
    var s3 := After(s2, close);
    var s4 := After(s3, rename);
    assert temp != RecordName(r.id);
    assert s4.files == s.files[RecordName(r.id) := Whole(r)];
    assert s4.procs == At(s, p, Saved).procs;
    First(s, Create(p, random), [write, close, rename]);
    First(s1, write, [close, rename]);
    First(s2, close, [rename]);
    First(s3, rename, []);
    assert Exec(s4, []) == Some(s4) by { Nothing(s4); }
    assert [Create(p, random)] + [write, close, rename] == SaveEvents(p, random);
    assert [write] + [close, rename] == [write, close, rename] && [close] + [rename] == [close, rename] && [rename] + [] == [rename];
  }

  lemma Nothing(s: State)
    ensures Exec(s, []) == Some(s)
  {
  }

  /** A process decides what to save and saves it, with nobody in between. */
  lemma DecideAndSave(s: State, e: Event, p: nat, proc: Process, random: string) returns (t: State)
    requires Enabled(s, e) && proc.phase.Saving? && After(s, e) == s.(procs := s.procs[p := proc])
    requires TempName(proc.record.id, random) !in s.files
    ensures Exec(s, [e] + SaveEvents(p, random)) == Some(t)
    ensures t == State(s.files[RecordName(proc.record.id) := Whole(proc.record)], s.procs[p := proc.(phase := Saved)])
  {
    hide Enabled, TempName, RecordName, Exec;
    var s1 := After(s, e);
    hide After;
    First(s, e, SaveEvents(p, random));
    SaveAlone(s1, p, random);
    t := At(s1, p, Saved).(files := s1.files[RecordName(proc.record.id) := Whole(proc.record)]);
  }

  /** Two processes read the same record. */
  lemma LoadTwice(s: State, p: nat, q: nat, role: Role, role': Role, id: string) returns (t: State)
    requires p !in s.procs && q !in s.procs && p != q && role != Spawner && role' != Spawner
    requires Stored(s, id).Some?
    ensures Exec(s, [Load(p, role, id), Load(q, role', id)]) == Some(t)
    ensures t == s.(procs := s.procs[p := Process(role, Stored(s, id).value, Holding)][q := Process(role', Stored(s, id).value, Holding)])
  {
    hide RecordName, Exec;
    var e, e' := Load(p, role, id), Load(q, role', id);
    var s1 := After(s, e);
    t := After(s1, e');
    First(s, e, [e']);
    First(s1, e', []);
    Nothing(t);
    assert [e] + [e'] == [e, e'] && [e'] + [] == [e'];
  }

  /** The exit code can be lost: a poller that read the record before the reaper saved it overwrites what the reaper wrote. */
  lemma ExitCodeCanBeLost(id: string, launch: Launch, code: int, now: int) returns (states: seq<State>, events: seq<Event>, i: nat)
    requires launch.pid > 0
    ensures Run(states, events) && i < |states|
    ensures Stored(states[i], id).Some? && Stored(states[i], id).value.exitCode == Some(code)
    ensures Stored(states[|events|], id).Some? && Stored(states[|events|], id).value.exitCode == None
  {
    TempsAreNoRecords();
    hide HasSuffix, TempName, RecordName, Trace, Exec, SaveEvents;
    var r := Record(id, launch, Running, None, None, "");
    var reaped := r.(status := Exited, exitedAt := Some(now), exitCode := Some(code));
    var polled := r.(status := Exited, exitedAt := Some(now));
    var s0 := State(map[], map[]);
    var s1 := DecideAndSave(s0, Spawn(0, r), 0, Process(Spawner, r, Saving), "a");
    var s2 := LoadTwice(s1, 1, 2, Reaper, Poller, id);
    var s3 := DecideAndSave(s2, Wait(1, Some(code), now), 1, Process(Reaper, reaped, Saving), "b");
    var s4 := DecideAndSave(s3, Poll(2, false, now), 2, Process(Poller, polled, Saving), "c");
    var e1, e2 := [Spawn(0, r)] + SaveEvents(0, "a"), [Load(1, Reaper, id), Load(2, Poller, id)];
    var e3, e4 := [Wait(1, Some(code), now)] + SaveEvents(1, "b"), [Poll(2, false, now)] + SaveEvents(2, "c");
    events := e1 + e2 + e3 + e4;
    hide After, Enabled;
    TraceOfConcat(s0, e1, e2);
    TraceOfConcat(s0, e1 + e2, e3);
    TraceOfConcat(s0, e1 + e2 + e3, e4);
    TraceIsRun(s0, events);
    states, i := Trace(s0, events), |e1 + e2 + e3|;
  }

  // ----- when the exit code is kept

  predicate CodeKept(s: State, id: string, code: int) {
    Stored(s, id).Some? && Stored(s, id).value.exitCode == Some(code)
  }

  /** Nobody who is still there holds a record of the agent with another exit code, or without one. */
  ghost predicate AllHoldCode(s: State, id: string, code: int) {
    forall p :: p in s.procs && s.procs[p].record.id == id && !s.procs[p].phase.Gone? ==> s.procs[p].record.exitCode == Some(code)
  }

  lemma CodeStaysStep(s: State, e: Event, id: string, code: int)
    requires Inv(s) && Enabled(s, e) && CodeKept(s, id, code) && AllHoldCode(s, id, code)
    ensures CodeKept(After(s, e), id, code) && AllHoldCode(After(s, e), id, code)
  {
    TempsAreNoRecords();
    hide HasSuffix, TempName, RecordName, TempsApart, RunningIsFirst, LaunchAgreed;
  }

  lemma {:induction false} CodeStays(s: State, events: seq<Event>, id: string, code: int)
    requires Inv(s) && CodeKept(s, id, code) && AllHoldCode(s, id, code) && Exec(s, events).Some?
    ensures CodeKept(Exec(s, events).value, id, code)
    decreases |events|
  {
    hide Enabled, After, Inv, CodeKept, AllHoldCode;
    if events != [] {
      StepInv(s, events[0]);
      CodeStaysStep(s, events[0], id, code);
      CodeStays(After(s, events[0]), events[1..], id, code);
    }
  }

  /** A number no process has. */
  lemma {:induction false} NewProcess(used: set<nat>) returns (p: nat)
    ensures forall q :: q in used ==> q < p
  {
    p := 0;
    if used != {} {
      var q :| q in used;
      var rest := NewProcess(used - {q});
      p := if rest > q then rest else q + 1;
      assert used == (used - {q}) + {q};
    }
  }

  lemma {:induction false} LongerThanAll(names: set<string>) returns (n: nat)
    ensures forall name :: name in names ==> |name| <= n
  {
    n := 0;
    if names != {} {
      var name :| name in names;
      var rest := LongerThanAll(names - {name});
      n := if rest > |name| then rest else |name|;
      assert names == (names - {name}) + {name};
    }
  }

  /** There is always a temporary name nobody uses. */
  lemma NewTemp(names: set<string>, id: string) returns (random: string)
    ensures TempName(id, random) !in names
  {
    var n := LongerThanAll(names);
    random := seq(n, _ => 'x');
    assert |TempName(id, random)| > n;
  }

  /** A process in the middle of a save can finish it. */
  lemma FinishSave(s: State, p: nat) returns (events: seq<Event>)
    requires Inv(s) && p in s.procs && Pending(s.procs[p].phase)
    ensures Exec(s, events).Some? && Stored(Exec(s, events).value, s.procs[p].record.id) == Some(s.procs[p].record)
  {
    hide HasSuffix, TempName, RecordName, Exec, FilesWhole, RunningIsFirst, LaunchAgreed, NoCodeYet, TempsApart;
    match s.procs[p].phase
    case Closed(temp) => events := FinishClosed(s, p);
    case Written(temp) =>
      var e := Close(p, true, true);
      StepInv(s, e);
      var rest := FinishClosed(After(s, e), p);
      events := [e] + rest;
      First(s, e, rest);
    case Created(temp) =>
      var e, e' := Write(p, true, true), Close(p, true, true);
      StepInv(s, e);
      var s1 := After(s, e);
      StepInv(s1, e');
      var rest := FinishClosed(After(s1, e'), p);
      events := [e] + ([e'] + rest);
      First(s, e, [e'] + rest);
      First(s1, e', rest);
    case Saving =>
      var random := NewTemp(s.files.Keys, s.procs[p].record.id);
      events := SaveEvents(p, random);
      SaveAlone(s, p, random);
  }

  lemma FinishClosed(s: State, p: nat) returns (events: seq<Event>)
    requires Inv(s) && p in s.procs && s.procs[p].phase.Closed?
    ensures Exec(s, events).Some? && Stored(Exec(s, events).value, s.procs[p].record.id) == Some(s.procs[p].record)
  {
    TempsAreNoRecords();
    hide HasSuffix, TempName, RecordName, Exec, FilesWhole, RunningIsFirst, LaunchAgreed, NoCodeYet, TempsApart;
    var e := Rename(p, true, true);
    events := [e] + [];
    First(s, e, []);
    Nothing(After(s, e));
  }

  /** Who holds a record and is to stop its agent can save it. */
  lemma StopAndSave(s: State, p: nat) returns (events: seq<Event>, r: Record)
    requires Inv(s) && In(s, p, Stopper)
    ensures r.exitCode == s.procs[p].record.exitCode
    ensures Exec(s, events).Some? && Stored(Exec(s, events).value, s.procs[p].record.id) == Some(r)
  {
    hide HasSuffix, TempName, RecordName, Exec, Inv;
    var e := Halt(p, 0);
    StepInv(s, e);
    r := Stopped(s.procs[p].record, 0);
    var rest := FinishSave(After(s, e), p);
    events := [e] + rest;
    First(s, e, rest);
  }

  /** Who is done can go on to stop the agent with the record in hand. */
  lemma TakeAndStop(s: State, q: nat) returns (events: seq<Event>, r: Record)
    requires Inv(s) && q in s.procs && Done(s.procs[q].phase)
    ensures r.exitCode == s.procs[q].record.exitCode
    ensures Exec(s, events).Some? && Stored(Exec(s, events).value, s.procs[q].record.id) == Some(r)
  {
    hide HasSuffix, TempName, RecordName, Exec, Inv;
    var p := NewProcess(s.procs.Keys);
    var e := Take(p, Stopper, q);
    StepInv(s, e);
    var rest;
    rest, r := StopAndSave(After(s, e), p);
    events := [e] + rest;
    First(s, e, rest);
  }

  /** Whoever is still there with a record can bring its exit code, or none, into the file. */
  lemma CanOverwrite(s: State, p: nat) returns (events: seq<Event>, r: Record)
    requires Inv(s) && p in s.procs && !s.procs[p].phase.Gone?
    ensures r.exitCode == s.procs[p].record.exitCode
    ensures Exec(s, events).Some? && Stored(Exec(s, events).value, s.procs[p].record.id) == Some(r)
  {
    hide HasSuffix, TempName, RecordName, Exec, FilesWhole, RunningIsFirst, LaunchAgreed, TempsApart, TempsThere;
    r := s.procs[p].record;
    if Pending(s.procs[p].phase) {
      events := FinishSave(s, p);
    } else if Done(s.procs[p].phase) {
      events, r := TakeAndStop(s, p);
    } else if s.procs[p].role == Stopper {
      events, r := StopAndSave(s, p);
    } else {
      var e := if s.procs[p].role == Reaper then Wait(p, None, 0) else Poll(p, true, 0);
      StepInv(s, e);
      var s1 := After(s, e);
      var rest;
      if Pending(s1.procs[p].phase) {
        rest := FinishSave(s1, p);
        r := s1.procs[p].record;
      } else {
        rest, r := TakeAndStop(s1, p);
      }
      events := [e] + rest;
      First(s, e, rest);
    }
  }

  /**
   * The exact condition: in any state of any run, a stored exit code survives every continuation if and only if all
   * processes that are still there and hold a record of the agent hold that code.
   */
  lemma ExitCodeKeptExactly(states: seq<State>, events: seq<Event>, i: nat, id: string, code: int)
    requires Run(states, events) && i < |states| && CodeKept(states[i], id, code)
    ensures AllHoldCode(states[i], id, code) <==>
            forall more :: Exec(states[i], more).Some? ==> CodeKept(Exec(states[i], more).value, id, code)
  {
    InvHolds(states, events, i);
    var s := states[i];
    hide Inv, Exec, Run, Stored;
    if AllHoldCode(s, id, code) {
      forall more | Exec(s, more).Some? ensures CodeKept(Exec(s, more).value, id, code) { CodeStays(s, more, id, code); }
    } else {
      var p :| p in s.procs && s.procs[p].record.id == id && !s.procs[p].phase.Gone? && s.procs[p].record.exitCode != Some(code);
      var more, r := CanOverwrite(s, p);
      assert !CodeKept(Exec(s, more).value, id, code);
    }
  }
}
