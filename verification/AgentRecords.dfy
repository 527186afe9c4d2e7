/** Agent records on disk: their names, what is saved when a session ends, and the save itself. */
module AgentRecords {
  import opened Text

  datatype Status = Running | Exited | Failed

  /** What Spawn fills in and nobody changes afterwards. */
  datatype Launch = Launch(pid: int, taskId: string, repo: string, worktree: string, startedAt: int)

  datatype Record = Record(id: string, launch: Launch, status: Status, exitedAt: Option<int>, exitCode: Option<int>, error: string)

  // ----- names

  /** StatePath, within the state directory. */
  function RecordName(id: string): string {
    id + ".json"
  }

  /** What os.CreateTemp makes of "<id>.json.*.tmp". */
  function TempName(id: string, random: string): string {
    id + ".json." + random + ".tmp"
  }

  /** The directory entries Load and List look at. */
  predicate IsRecordName(name: string) {
    HasSuffix(name, ".json") && !HasSuffix(name, ".tmp.json")
  }

  lemma NamesDiffer(id: string, random: string, other: string)
    ensures !IsRecordName(TempName(id, random)) && TempName(id, random) != RecordName(other)
    ensures HasSuffix(TempName(id, random), ".tmp")
    ensures RecordName(id) == RecordName(other) ==> id == other
  {
    var t, r := TempName(id, random), RecordName(other);
    assert t[|t| - 4..] == ".tmp" && t[|t| - 1] == 'p';
    assert r[|r| - 5..] == ".json" && r[|r| - 1] == 'n';
    assert t[|t| - 5..][4] == 'p' && ".json"[4] == 'n';
    assert RecordName(id)[..|id|] == id && r[..|other|] == other;
  }

  /** A record's file is seen again, under its own id, unless the id ends in ".tmp". */
  lemma RecordIsSeen(id: string)
    ensures HasSuffix(RecordName(id), ".json") && RecordName(id)[..|RecordName(id)| - 5] == id
    ensures IsRecordName(RecordName(id)) <==> !HasSuffix(id, ".tmp")
  {
    var r := RecordName(id);
    assert r[|id|..] == ".json" && r[..|id|] == id;
    if |id| >= 4 {
      assert r[|r| - 9..] == id[|id| - 4..] + ".json";
      assert ".tmp" + ".json" == ".tmp.json";
      assert r[|r| - 9..][..4] == id[|id| - 4..] && ".tmp.json"[..4] == ".tmp";
    } else if |r| >= 9 {
      assert false;
    }
  }

  /** The ids Load considers for a request. */
  function Matching(names: set<string>, wanted: string): set<string> {
    set n | n in names && IsRecordName(n) && wanted <= Stem(n) :: Stem(n)
  }

  /** strings.TrimSuffix(name, ".json") of a record's name. */
  function Stem(name: string): string {
    if |name| >= 5 then name[..|name| - 5] else name
  }

  function Names(entries: seq<string>): set<string> {
    set e | e in entries
  }

  datatype Lookup = Found(id: string) | NotFound | Ambiguous

  /** Load: the one record whose id is or starts with what is asked for. `entries` is the directory listing. */
  method Find(entries: seq<string>, wanted: string) returns (r: Lookup)
    requires forall i, j :: 0 <= i < j < |entries| ==> entries[i] != entries[j]
    ensures var ids := Matching(Names(entries), wanted);
      && (r == NotFound <==> ids == {})
      && (r.Found? <==> |ids| == 1)
      && (r.Found? ==> r.id in ids)
  {
    var matches: seq<string> := [];
    ghost var names: set<string> := {};
    for i := 0 to |entries|
      invariant names == Names(entries[..i])
      invariant forall m :: m in matches <==> m in Matching(names, wanted)
      invariant forall j, k :: 0 <= j < k < |matches| ==> matches[j] != matches[k]
    {
      hide HasSuffix, Stem;
      var name := entries[i];
      assert entries[..i + 1] == entries[..i] + [name];
      Matched(names, name, wanted);
      names := names + {name};
      if !HasSuffix(name, ".json") || HasSuffix(name, ".tmp.json") {
        continue;
      }
      var id := Stem(name);
      if id == wanted || wanted <= id {
        matches := matches + [id];
      }
    }
    assert entries[..|entries|] == entries;
    ghost var ids := Matching(names, wanted);
    Counted(matches, ids);
    if |matches| == 0 {
      return NotFound;
    } else if |matches| == 1 {
      assert matches[0] in matches;
      return Found(matches[0]);
    } else {
      return Ambiguous;
    }
  }

  lemma StemIsUnique(m: string, n: string)
    requires IsRecordName(m) && IsRecordName(n) && Stem(m) == Stem(n)
    ensures m == n
  {
    assert m == Stem(m) + ".json" && n == Stem(n) + ".json";
  }

  /** One more directory entry: what it adds, which was not there. */
  lemma Matched(names: set<string>, name: string, wanted: string)
    ensures Matching(names + {name}, wanted) == Matching(names, wanted) + if IsRecordName(name) && wanted <= Stem(name) then {Stem(name)} else {}
    ensures IsRecordName(name) && name !in names ==> Stem(name) !in Matching(names, wanted)
  {
    hide IsRecordName, Stem;
    if IsRecordName(name) && name !in names {
      forall n | n in names && IsRecordName(n) ensures Stem(n) != Stem(name) {
        if Stem(n) == Stem(name) {
          StemIsUnique(n, name);
        }
      }
    }
  }

  lemma {:induction false} Counted(s: seq<string>, ids: set<string>)
    requires forall m :: m in s <==> m in ids
    requires forall j, k :: 0 <= j < k < |s| ==> s[j] != s[k]
    ensures |ids| == |s|
  {
    if s != [] {
      var last := s[|s| - 1];
      assert s[|s| - 1] in s;
      forall m ensures m in s[..|s| - 1] <==> m in ids - {last} {
        if m in ids - {last} {
          assert m in s;
        }
      }
      Counted(s[..|s| - 1], ids - {last});
      assert ids == (ids - {last}) + {last};
    }
  }

  // ----- what is saved

  const NO_PID := "agent has no pid; cannot poll status"

  /** What the poll makes of a record, if it changes it. */
  function Polled(r: Record, alive: bool, now: int): Option<Record> {
    if !r.status.Running? then None
    else if r.launch.pid <= 0 then Some(r.(status := Failed, error := if r.error == "" then NO_PID else r.error))
    else if alive then None
    else Some(r.(status := Exited, exitedAt := Some(now)))
  }

  /** What the goroutine waiting for the child saves. */
  function Reaped(r: Record, code: Option<int>, now: int): Option<Record> {
    if !r.status.Running? then None
    else Some(r.(status := Exited, exitedAt := Some(now), exitCode := if code.Some? then code else r.exitCode))
  }

  function Stopped(r: Record, now: int): Record {
    r.(status := Exited, exitedAt := if r.exitedAt.None? then Some(now) else r.exitedAt)
  }

  /**
   * What the poll finds out about a record that says running: its process is gone, so it is exited as of now; or it never
   * had one, so it failed, for that reason if there is no other. What else the record says stays, the exit code included.
   */
  lemma PollFindsOut(r: Record, alive: bool, now: int)
    ensures Polled(r, alive, now).Some? <==> r.status == Running && (r.launch.pid <= 0 || !alive)
    ensures Polled(r, alive, now).Some? ==>
              var next := Polled(r, alive, now).value;
              && next.id == r.id && next.launch == r.launch && next.exitCode == r.exitCode
              && (next.status == Failed <==> r.launch.pid <= 0) && (next.status == Exited <==> r.launch.pid > 0)
              && next.exitedAt == (if next.status == Exited then Some(now) else r.exitedAt)
              && next.error == (if next.status == Failed && r.error == "" then "agent has no pid; cannot poll status" else r.error)
  {
  }

  /** What waiting for the child and stopping it leave in a record: an exit, its time, and the code if there is one. */
  lemma EndIsRecorded(r: Record, code: Option<int>, now: int)
    ensures Stopped(r, now).status == Exited && Stopped(r, now).exitedAt.Some? && (r.exitedAt.Some? ==> Stopped(r, now).exitedAt == r.exitedAt)
    ensures Stopped(r, now).exitCode == r.exitCode && Stopped(r, now).error == r.error && Stopped(r, now).launch == r.launch
    ensures Reaped(r, code, now).Some? <==> r.status == Running
    ensures r.status == Running ==>
              var next := Reaped(r, code, now).value;
              && next.status == Exited && next.exitedAt == Some(now) && (code.Some? ==> next.exitCode == code)
              && (code.None? ==> next.exitCode == r.exitCode) && next.id == r.id && next.launch == r.launch && next.error == r.error
  {
  }

  /**
   * A lookup among records: the ids that start with what is asked for. Temporary files do not count, and an id that ends in
   * ".tmp" is never found.
   */
  lemma LookupByPrefix(ids: set<string>, temps: set<string>, wanted: string)
    requires forall n :: n in temps ==> HasSuffix(n, ".tmp")
    ensures Matching((set id | id in ids :: RecordName(id)) + temps, wanted) == set id | id in ids && wanted <= id && !HasSuffix(id, ".tmp")
  {
    var names := (set id | id in ids :: RecordName(id)) + temps;
    hide IsRecordName, HasSuffix, Stem, RecordName;
    forall id ensures Stem(RecordName(id)) == id && (IsRecordName(RecordName(id)) <==> !HasSuffix(id, ".tmp")) {
      RecordIsSeen(id);
      StemOfRecord(id);
    }
    forall n | n in temps ensures !IsRecordName(n) {
      TempIsUnseen(n);
    }
    forall id | id in ids ensures RecordName(id) in names {}
  }

  lemma StemOfRecord(id: string)
    ensures Stem(RecordName(id)) == id
  {
  }

  lemma TempIsUnseen(name: string)
    requires HasSuffix(name, ".tmp")
    ensures !IsRecordName(name)
  {
    assert name[|name| - 1] == name[|name| - 4..][3] == 'p';
    assert |name| >= 5 ==> name[|name| - 1] == name[|name| - 5..][4];
  }

  // ----- the state directory

  /** A file holds a whole record, or only a part of one. */
  datatype Content = Part | Whole(record: Record)

  class Agent {
    const id: string
    const launch: Launch
    var status: Status
    var exitedAt: Option<int>
    var exitCode: Option<int>
    var error: string

    constructor (r: Record)
      ensures Value() == r
    {
      id, launch, status, exitedAt, exitCode, error := r.id, r.launch, r.status, r.exitedAt, r.exitCode, r.error;
    }

    function Value(): Record
      reads this
    {
      Record(id, launch, status, exitedAt, exitCode, error)
    }

    /** RefreshStatus; `alive` is what pidAlive answers, None for an error. */
    method RefreshStatus(dir: Directory, alive: Option<bool>, now: int, a: SaveAnswers) returns (ok: bool)
      requires dir.Accepts(id, a)
      modifies this, dir
      ensures var next, blind := Polled(old(Value()), alive == Some(true), now), old(status).Running? && launch.pid > 0 && alive == None;
        && (blind || next == None ==> (ok <==> !blind) && Value() == old(Value()) && dir.files == old(dir.files))
        && (!blind && next.Some? ==> Value() == next.value && (ok <==> a.AllWell()) && (ok ==> dir.files == old(dir.files)[RecordName(id) := Whole(next.value)]))
        && (!ok && a.removed ==> dir.files == old(dir.files))
    {
      if !status.Running? {
        return true;
      }
      if launch.pid <= 0 {
        status := Failed;
        if error == "" {
          error := NO_PID;
        }
        ok := dir.Save(Value(), a);
        return;
      }
      if alive.None? {
        return false;
      }
      if alive.value {
        return true;
      }
      status, exitedAt := Exited, Some(now);
      ok := dir.Save(Value(), a);
    }

    /** Stop, as far as the record goes. */
    method Stop(dir: Directory, now: int, a: SaveAnswers) returns (ok: bool)
      requires dir.Accepts(id, a)
      modifies this, dir
      ensures Value() == Stopped(old(Value()), now) && (ok <==> a.AllWell())
      ensures ok ==> dir.files == old(dir.files)[RecordName(id) := Whole(Value())]
      ensures !ok && a.removed ==> dir.files == old(dir.files)
    {
      status := Exited;
      if exitedAt.None? {
        exitedAt := Some(now);
      }
      ok := dir.Save(Value(), a);
    }
  }

  /** The random part of the temporary name, and how the steps of a save go. */
  datatype SaveAnswers = SaveAnswers(random: string, created: bool, written: bool, closed: bool, renamed: bool, removed: bool)
  {
    predicate AllWell() {
      created && written && closed && renamed
    }
  }

  class Directory {
    var files: map<string, Content>

    /** The temporary name is one nobody uses: os.CreateTemp tries until it is. */
    predicate Accepts(id: string, a: SaveAnswers)
      reads this
    {
      TempName(id, a.random) !in files
    }

    /** Save: the record is replaced as a whole, or nothing but a temporary file is left behind. */
    method Save(r: Record, a: SaveAnswers) returns (ok: bool)
      requires Accepts(r.id, a)
      modifies this
      ensures ok <==> a.AllWell()
      ensures ok ==> files == old(files)[RecordName(r.id) := Whole(r)]
      ensures !ok && a.removed ==> files == old(files)
      ensures !ok ==> forall n :: IsRecordName(n) ==> (n in files <==> n in old(files)) && (n in files ==> files[n] == old(files)[n])
    {
      hide IsRecordName, HasSuffix, TempName, RecordName;
      var path, temp := RecordName(r.id), TempName(r.id, a.random);
      NamesDiffer(r.id, a.random, r.id);
      if !a.created {
        return false;
      }
      files := files[temp := Part];
      if !a.written {
        Discard(temp, a.removed);
        return false;
      }
      files := files[temp := Whole(r)];
      if !a.closed {
        Discard(temp, a.removed);
        return false;
      }
      if !a.renamed {
        Discard(temp, a.removed);
        return false;
      }
      files := files[path := files[temp]] - {temp};
      return true;
    }

    /** os.Remove, whose failure is ignored. */
    method Discard(name: string, removed: bool)
      modifies this
      ensures files == if removed then old(files) - {name} else old(files)
    {
      if removed {
        files := files - {name};
      }
    }
  }
}
