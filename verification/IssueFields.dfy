/** The fields read off the body of a GitHub issue, and that the stamp does not disturb them. */
module IssueFields {
  import opened Text
  import opened IssueBody
  import Slugs

  /** "\s" */
  predicate IsRegexSpace(c: char) {
    c == '\t' || c == '\n' || c == '\U{0C}' || c == '\r' || c == ' '
  }

  function SkipSpaces(s: string): (r: string)
    ensures |r| <= |s|
  {
    if s != "" && IsRegexSpace(s[0]) then SkipSpaces(s[1..]) else s
  }

  function FirstLine(s: string): string {
    if s == "" || s[0] == '\n' then "" else [s[0]] + FirstLine(s[1..])
  }

  // ----- the expressions, matched at the start of a text

  /** taskIDRe */
  function TaskIdAt(s: string): Option<string> {
    if !(TASK_ID <= s) then None else
    var a := SkipSpaces(s[|TASK_ID|..]);
    var b := if a != "" && a[0] == '`' then a[1..] else a;
    if |b| >= 8 && IsShortId(b[..8]) then Some(b[..8]) else None
  }

  /** priorityRe */
  function PriorityAt(s: string): Option<string> {
    if !(PRIORITY <= s) then None else
    var a := SkipSpaces(s[|PRIORITY|..]);
    if |a| >= 2 && a[0] == 'P' && '1' <= a[1] <= '4' then Some(FirstLine(a)) else None
  }

  /** epicRe; where only blanks follow, the name it finds is empty, as if it had found none. */
  function EpicAt(s: string): Option<string> {
    if !(EPIC <= s) then None else
    var a := SkipSpaces(s[|EPIC|..]);
    if a == "" then None else Some(FirstLine(a))
  }

  const DEPENDENCIES := "**Dependencies:**"

  /** depsRe */
  function DepsAt(s: string): Option<string> {
    if !(DEPENDENCIES <= s) then None else
    var a := SkipSpaces(s[|DEPENDENCIES|..]);
    if a == "" then None else Some(FirstLine(a))
  }

  /** The leftmost match. */
  function First(at: string -> Option<string>, s: string): Option<string> {
    if s == "" || at(s).Some? then at(s) else First(at, s[1..])
  }

  /** The rightmost match; matches of taskIDRe never overlap. */
  function Last(at: string -> Option<string>, s: string): Option<string> {
    if s == "" then at(s) else
    var later := Last(at, s[1..]);
    if later.Some? then later else at(s)
  }

  // ----- the fields

  function TaskId(body: string): Option<string> {
    Last(TaskIdAt, body)
  }

  function NormalizePriority(raw: string): (p: string)
    ensures p in {"p1_urgent", "p2_high", "p3_medium", "p4_low"}
  {
    var lower := Slugs.ToLower(raw);
    if Contains(lower, "p1") || Contains(lower, "urgent") then "p1_urgent"
    else if Contains(lower, "p2") || Contains(lower, "high") then "p2_high"
    else if Contains(lower, "p3") || Contains(lower, "medium") then "p3_medium"
    else if Contains(lower, "p4") || Contains(lower, "low") then "p4_low"
    else "p3_medium"
  }

  /** The priority, "" if the body names none. */
  function Priority(body: string): string {
    var m := First(PriorityAt, body);
    if m.Some? then NormalizePriority(Trim(m.value)) else ""
  }

  function Epic(body: string): string {
    var m := First(EpicAt, body);
    if m.Some? then Trim(m.value) else ""
  }

  predicate IsWord(c: char) {
    'a' <= c <= 'z' || 'A' <= c <= 'Z' || '0' <= c <= '9' || c == '_'
  }

  /** depTaskIDRe: the words of eight hex digits; `inWord` tells whether a word character stands before. */
  function HexWords(s: string, inWord: bool): (words: seq<string>)
    ensures forall w :: w in words ==> IsShortId(w)
  {
    if |s| < 8 then []
    else if !inWord && IsShortId(s[..8]) && (|s| == 8 || !IsWord(s[8])) then [s[..8]] + HexWords(s[8..], true)
    else HexWords(s[1..], IsWord(s[0]))
  }

  /** A word of eight hex digits stands at i: the characters around it are no word characters. */
  predicate WordAt(s: string, i: nat, w: string, inWord: bool) {
    && i + 8 <= |s| && s[i..i + 8] == w && IsShortId(w)
    && (if i == 0 then !inWord else !IsWord(s[i - 1]))
    && (i + 8 == |s| || !IsWord(s[i + 8]))
  }

  predicate Stands(s: string, w: string, inWord: bool) {
    exists i :: 0 <= i <= |s| && WordAt(s, i, w, inWord)
  }

  /** The words read are exactly those that stand somewhere. */
  lemma {:induction false} HexWordsExactly(s: string, inWord: bool, w: string)
    ensures w in HexWords(s, inWord) <==> Stands(s, w, inWord)
  {
    hide IsHex, IsWord, IsShortId, Stands;
    if |s| < 8 {
      TooShort(s, w, inWord);
    } else if WordAt(s, 0, s[..8], inWord) {
      assert s[0..8] == s[..8];
      assert IsWord(s[7]) by { HexIsWord(s[7]); IdIsHex(s[..8]); }
      HexWordsExactly(s[8..], true, w);
      StandsBehind(s, 8, w, inWord);
    } else {
      assert s[0..8] == s[..8];
      HexWordsExactly(s[1..], IsWord(s[0]), w);
      StandsBehind(s, 1, w, inWord);
    }
  }

  lemma TooShort(s: string, w: string, inWord: bool)
    requires |s| < 8
    ensures !Stands(s, w, inWord)
  {
  }

  lemma HexIsWord(c: char)
    ensures IsHex(c) ==> IsWord(c)
  {
  }

  lemma IdIsHex(id: string)
    ensures IsShortId(id) ==> forall i :: 0 <= i < 8 ==> IsHex(id[i])
  {
  }

  /** A word stands at the start, or in the rest behind one character, or behind the word that stands at the start. */
  lemma StandsBehind(s: string, n: nat, w: string, inWord: bool)
    requires |s| >= 8 && (n == 1 || (n == 8 && IsShortId(s[..8])))
    ensures Stands(s, w, inWord) <==> WordAt(s, 0, w, inWord) || Stands(s[n..], w, IsWord(s[n - 1]))
  {
    hide IsHex, IsWord, IsShortId;
    forall i | n <= i <= |s| ensures WordAt(s, i, w, inWord) <==> WordAt(s[n..], i - n, w, IsWord(s[n - 1])) {
      if i + 8 <= |s| {
        assert s[n..][i - n..i - n + 8] == s[i..i + 8];
      }
    }
    if n == 8 {
      IdIsHex(s[..8]);
      forall i | 0 < i < 8 ensures !WordAt(s, i, w, inWord) {
        assert s[i - 1] == s[..8][i - 1];
        HexIsWord(s[i - 1]);
      }
    }
    if Stands(s[n..], w, IsWord(s[n - 1])) {
      var j :| 0 <= j <= |s[n..]| && WordAt(s[n..], j, w, IsWord(s[n - 1]));
      assert WordAt(s, j + n, w, inWord);
    }
    if i :| 0 <= i <= |s| && WordAt(s, i, w, inWord) {
      assert i >= n ==> WordAt(s[n..], i - n, w, IsWord(s[n - 1]));
    }
  }

  /** An id that a letter, a digit or an underscore stands before is part of another word. */
  lemma JoinedIsNoWord(c: char, id: string)
    requires c == '_' || 'a' <= c <= 'z' || 'A' <= c <= 'Z' || '0' <= c <= '9'
    requires IsShortId(id) && c != id[0]
    ensures id !in HexWords([c] + id, false)
  {
    HexWordsExactly([c] + id, false, id);
    assert ([c] + id)[0] == c;
    hide IsShortId;
    forall i | 0 <= i <= 9 ensures !WordAt([c] + id, i, id, false) {
      assert i == 0 ==> ([c] + id)[0..8][0] == c;
    }
  }

  /** The words not seen before, each once. */
  function Once(words: seq<string>, seen: set<string>): seq<string> {
    if words == [] then []
    else if words[0] in seen then Once(words[1..], seen)
    else [words[0]] + Once(words[1..], seen + {words[0]})
  }

  function DepWords(body: string): seq<string> {
    var m := First(DepsAt, body);
    if m.None? || Contains(Slugs.ToLower(m.value), "none") then [] else HexWords(m.value, false)
  }

  /** The ids of the tasks a body depends on. */
  function Deps(body: string): seq<string> {
    Once(DepWords(body), {})
  }

  lemma {:induction false} OnceIsOnce(words: seq<string>, seen: set<string>)
    ensures var once := Once(words, seen);
      && (forall w :: w in once <==> w in words && w !in seen)
      && (forall i, j :: 0 <= i < j < |once| ==> once[i] != once[j])
  {
    if words != [] {
      OnceIsOnce(words[1..], if words[0] in seen then seen else seen + {words[0]});
    }
  }

  /** Dependencies are short ids, none of them twice, and all that the line names. */
  lemma DepsAreIds(body: string)
    ensures forall d :: d in Deps(body) <==>
              && First(DepsAt, body).Some? && !Contains(Slugs.ToLower(First(DepsAt, body).value), "none")
              && Stands(First(DepsAt, body).value, d, false)
    ensures forall d :: d in Deps(body) ==> IsShortId(d)
    ensures forall i, j :: 0 <= i < j < |Deps(body)| ==> Deps(body)[i] != Deps(body)[j]
  {
    hide First, IsShortId, Contains, HexWords, Stands, Slugs.ToLower;
    OnceIsOnce(DepWords(body), {});
    if First(DepsAt, body).Some? {
      forall d ensures d in HexWords(First(DepsAt, body).value, false) <==> Stands(First(DepsAt, body).value, d, false) {
        HexWordsExactly(First(DepsAt, body).value, false, d);
      }
    }
  }

  // ----- the stamp

  lemma {:induction false} FirstPast(at: string -> Option<string>, u: string, s: string)
    requires forall i {:trigger (u + s)[i..]} :: 0 <= i < |u| ==> at((u + s)[i..]) == None
    ensures First(at, u + s) == First(at, s)
  {
    if u == "" {
      assert u + s == s;
    } else {
      assert (u + s)[0..] == u + s;
      var t := u[1..];
      assert (u + s)[1..] == t + s;
      forall i {:trigger (t + s)[i..]} | 0 <= i < |t| ensures at((t + s)[i..]) == None {
        assert (u + s)[i + 1..] == (t + s)[i..];
      }
      FirstPast(at, t, s);
    }
  }

  lemma {:induction false} LastPast(at: string -> Option<string>, u: string, s: string)
    requires forall i {:trigger (u + s)[i..]} :: 0 <= i < |u| ==> at((u + s)[i..]) == None
    ensures Last(at, u + s) == Last(at, s)
  {
    if u == "" {
      assert u + s == s;
    } else {
      assert (u + s)[0..] == u + s;
      var t := u[1..];
      assert (u + s)[1..] == t + s;
      forall i {:trigger (t + s)[i..]} | 0 <= i < |t| ensures at((t + s)[i..]) == None {
        assert (u + s)[i + 1..] == (t + s)[i..];
      }
      LastPast(at, t, s);
    }
  }

  /** The character after two stars. */
  function Mark(s: string): Option<char> {
    if |s| >= 3 && s[0] == '*' && s[1] == '*' then Some(s[2]) else None
  }

  lemma Marks(s: string)
    ensures TASK_ID <= s ==> Mark(s) == Some('T')
    ensures PRIORITY <= s ==> Mark(s) == Some('P')
    ensures EPIC <= s ==> Mark(s) == Some('E')
    ensures DEPENDENCIES <= s ==> Mark(s) == Some('D')
  {
  }

  lemma MarksInStamp(id: string, body: string, i: nat)
    requires IsShortId(id) && i <= |Stamp(id)|
    ensures Mark(Stamped(id, body)[i..]) == if i == 0 then Some('T') else if i == 10 then Some(' ') else None
  {
    var all, s := Stamped(id, body), Stamped(id, body)[i..];
    assert |all| >= 22 && all[..12] == TASK_ID && all[12] == ' ' && all[21] == '\n';
    assert forall j :: 13 <= j < 21 ==> all[j] == id[j - 13] && all[j] != '*';
    assert s[0] == all[i] && (|s| >= 3 ==> s[1] == all[i + 1] && s[2] == all[i + 2]);
    assert forall j :: 0 <= j < 12 ==> all[j] == TASK_ID[j];
  }

  /** Nothing in a stamp, past its first character, opens a field. */
  lemma StampOpensNothing(id: string, body: string, i: nat)
    requires IsShortId(id) && i <= |Stamp(id)|
    ensures var s := Stamped(id, body)[i..]; !(PRIORITY <= s) && !(EPIC <= s) && !(DEPENDENCIES <= s) && (i > 0 ==> !(TASK_ID <= s))
  {
    hide Stamp, Mark;
    Marks(Stamped(id, body)[i..]);
    MarksInStamp(id, body, i);
  }

  lemma StampIsRead(id: string, body: string)
    requires IsShortId(id)
    ensures TaskIdAt(Stamped(id, body)) == Some(id)
  {
    var all := Stamped(id, body);
    assert all[|TASK_ID|..] == " " + (id + "\n" + body);
    var a := id + "\n" + body;
    assert (" " + a)[1..] == a;
    assert IsHex(a[0]);
    assert SkipSpaces(" " + a) == SkipSpaces(a) == a;
    assert a[..8] == id;
  }

  /** After the stamp the id is read back unless the body names one itself; the other fields are what they were. */
  lemma StampedFields(id: string, body: string)
    requires IsShortId(id)
    ensures TaskId(Stamped(id, body)) == if TaskId(body).Some? then TaskId(body) else Some(id)
    ensures Priority(Stamped(id, body)) == Priority(body) && Epic(Stamped(id, body)) == Epic(body)
    ensures Deps(Stamped(id, body)) == Deps(body)
  {
    hide Once, HexWords, Contains, Stamp, TaskIdAt, IsShortId, NormalizePriority, Trim;
    var u := Stamp(id) + "\n";
    assert Stamped(id, body) == u + body;
    forall i {:trigger (u + body)[i..]} | 0 <= i < |u|
      ensures PriorityAt((u + body)[i..]) == None && EpicAt((u + body)[i..]) == None && DepsAt((u + body)[i..]) == None
    {
      StampOpensNothing(id, body, i);
    }
    FirstPast(PriorityAt, u, body);
    FirstPast(EpicAt, u, body);
    FirstPast(DepsAt, u, body);
    var t := u[1..];
    assert (u + body)[1..] == t + body;
    forall i {:trigger (t + body)[i..]} | 0 <= i < |t| ensures TaskIdAt((t + body)[i..]) == None {
      StampOpensNothing(id, body, i + 1);
      assert (u + body)[i + 1..] == (t + body)[i..];
      NoTaskIdAt((t + body)[i..]);
    }
    LastPast(TaskIdAt, t, body);
    StampIsRead(id, body);
  }

  lemma NoTaskIdAt(s: string)
    ensures !(TASK_ID <= s) ==> TaskIdAt(s) == None
  {
  }
}
