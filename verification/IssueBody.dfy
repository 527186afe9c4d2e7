/** The text of a GitHub issue: the metadata lines in it, what is left without them, and the stamp. */
module IssueBody {
  import opened Text

  const TASK_ID := "**Task ID:**"

  const PRIORITY := "**Priority:**"

  const EPIC := "**Epic:**"

  /** A line whose contents live in columns of the task. */
  predicate IsMeta(line: string) {
    var t := Trim(line);
    TASK_ID <= t || PRIORITY <= t || "**Type:**" <= t || "**Session:**" <= t || EPIC <= t
  }

  function Keep(lines: seq<string>): (kept: seq<string>) {
    if lines == [] then [] else (if IsMeta(lines[0]) then [] else [lines[0]]) + Keep(lines[1..])
  }

  function Stripped(body: string): string {
    Trim(Join(Keep(Split(body))))
  }

  lemma KeepNil()
    ensures Keep([]) == []
  {
  }

  lemma KeepCons(line: string, rest: seq<string>)
    ensures Keep([line] + rest) == (if IsMeta(line) then [] else [line]) + Keep(rest)
  {
    hide IsMeta;
  }

  lemma {:induction false} KeptLines(lines: seq<string>)
    ensures forall l :: l in Keep(lines) <==> l in lines && !IsMeta(l)
  {
    hide IsMeta;
    if lines != [] {
      KeptLines(lines[1..]);
    }
  }

  /** stripIssueMeta */
  method StripIssueMeta(body: string) returns (cleaned: string)
    ensures cleaned == Stripped(body)
  {
    hide IsMeta, Split, Trim, Keep;
    var lines := Split(body);
    var out: seq<string> := [];
    for i := 0 to |lines|
      invariant out + Keep(lines[i..]) == Keep(lines)
    {
      KeepCons(lines[i], lines[i + 1..]);
      assert lines[i..] == [lines[i]] + lines[i + 1..];
      if IsMeta(lines[i]) {
        continue;
      }
      assert out + ([lines[i]] + Keep(lines[i + 1..])) == out + [lines[i]] + Keep(lines[i + 1..]);
      out := out + [lines[i]];
    }
    assert lines[|lines|..] == [];
    KeepNil();
    assert out + [] == out && lines[0..] == lines;
    cleaned := Trim(Join(out));
  }

  // ----- stripping twice

  ghost predicate NoMeta(s: string) {
    forall l :: l in Split(s) ==> !IsMeta(l)
  }

  lemma {:induction false} KeepAll(lines: seq<string>)
    requires forall l :: l in lines ==> !IsMeta(l)
    ensures Keep(lines) == lines
  {
    hide IsMeta;
    if lines != [] {
      KeepAll(lines[1..]);
    }
  }

  lemma BlankBefore(c: char, line: string)
    requires IsSpace(c)
    ensures Trim([c] + line) == Trim(line)
  {
    assert ([c] + line)[1..] == line;
  }

  lemma {:induction false} BlankAfter(line: string, c: char)
    requires IsSpace(c)
    ensures Trim(line + [c]) == Trim(line)
  {
    hide IsSpace;
    if line == "" {
      assert "" + [c] == [c];
      BlankBefore(c, "");
      assert [c] + "" == [c];
    } else if IsSpace(line[0]) {
      BlankAfter(line[1..], c);
      assert (line + [c])[1..] == line[1..] + [c];
    } else {
      assert (line + [c])[..|line|] == line;
    }
  }

  lemma {:induction false} SplitOfSnoc(s: string, c: char)
    ensures Split(s + [c]) == Behind(Split(s), c)
  {
    if s == "" {
      assert s + [c] == [c] && [c][1..] == "";
      assert [c] + "" == [c] == "" + [c];
      assert [[c]] + [""][1..] == [[c]] == [""][..0] + [[c]];
    } else {
      SplitOfSnoc(s[1..], c);
      assert (s + [c])[1..] == s[1..] + [c];
      FirstAndLast(s[0], Split(s[1..]), c);
    }
  }

  /** The lines when a character is added before the first or after the last. */
  function Before(c: char, lines: seq<string>): seq<string>
    requires lines != []
  {
    if c == '\n' then [""] + lines else [[c] + lines[0]] + lines[1..]
  }

  function Behind(lines: seq<string>, c: char): seq<string>
    requires lines != []
  {
    if c == '\n' then lines + [""] else lines[..|lines| - 1] + [lines[|lines| - 1] + [c]]
  }

  lemma FirstAndLast(b: char, lines: seq<string>, c: char)
    requires lines != []
    ensures Before(b, Behind(lines, c)) == Behind(Before(b, lines), c)
  {
    if |lines| == 1 && b != '\n' && c != '\n' {
      assert [b] + (lines[0] + [c]) == [b] + lines[0] + [c];
    }
  }

  lemma {:induction false} TrimLeftKeepsNoMeta(s: string)
    requires NoMeta(s)
    ensures NoMeta(TrimLeft(s))
  {
    hide IsSpace, Trim;
    if s != "" && IsSpace(s[0]) {
      var rest := Split(s[1..]);
      BlankBefore(s[0], rest[0]);
      forall l | l in rest ensures !IsMeta(l) {
        if s[0] == '\n' {
          assert l in [""] + rest;
        } else if l in rest[1..] {
          assert l in [[s[0]] + rest[0]] + rest[1..];
        } else {
          assert ([[s[0]] + rest[0]] + rest[1..])[0] in Split(s);
        }
      }
      TrimLeftKeepsNoMeta(s[1..]);
    }
  }

  lemma {:induction false} TrimRightKeepsNoMeta(s: string)
    requires NoMeta(s)
    ensures NoMeta(TrimRight(s))
  {
    hide IsSpace, Trim, Split;
    if s != "" && IsSpace(s[|s| - 1]) {
      var c, front := s[|s| - 1], s[..|s| - 1];
      var a := Split(front);
      SplitOfSnoc(front, c);
      assert front + [c] == s;
      BlankAfter(a[|a| - 1], c);
      forall l | l in a ensures !IsMeta(l) {
        if l in a[..|a| - 1] {
          assert l in Split(s);
        } else if c == '\n' {
          assert l in Split(s);
        } else {
          assert (a[|a| - 1] + [c]) in Split(s);
        }
      }
      TrimRightKeepsNoMeta(front);
    }
  }

  /** No line of a stripped body is metadata, and it neither starts nor ends with a blank. */
  lemma StrippedIsClean(body: string)
    ensures NoMeta(Stripped(body)) && Trimmed(Stripped(body))
  {
    hide IsMeta, Split, Trim, TrimLeft, TrimRight, Keep;
    var kept := Keep(Split(body));
    KeptLines(Split(body));
    forall i | 0 <= i < |kept| ensures OneLine(kept[i]) {
      assert kept[i] in Split(body);
    }
    if kept == [] {
      SplitOfOneLine("");
      assert NoMeta("") by { NothingIsNoMeta(); }
    } else {
      SplitOfJoin(kept);
    }
    TrimLeftKeepsNoMeta(Join(kept));
    TrimRightKeepsNoMeta(TrimLeft(Join(kept)));
    TrimCuts(Join(kept));
    assert Trim(Join(kept)) == TrimRight(TrimLeft(Join(kept))) by { TrimIsBoth(Join(kept)); }
  }

  lemma TrimIsBoth(s: string)
    ensures Trim(s) == TrimRight(TrimLeft(s))
  {
  }

  lemma NothingIsStripped()
    ensures Stripped("") == ""
  {
    assert Trim("") == "" && Split("") == [""];
    assert Keep([""]) == [""] + Keep([]) || Keep([""]) == [] + Keep([]);
  }

  lemma NothingIsNoMeta()
    ensures NoMeta("")
  {
    assert Trim("") == "";
  }

  // ----- what goes and what stays

  const FIELDS := {"**Task ID:**", "**Priority:**", "**Type:**", "**Session:**", "**Epic:**"}

  /** A line that opens with the name of a field. */
  predicate OpensField(line: string) {
    exists field :: field in FIELDS && field <= Trim(line)
  }

  lemma FieldsAreMeta(line: string)
    ensures OpensField(line) <==> IsMeta(line)
  {
    hide Trim;
  }

  /** Up to blanks at its ends the line is one of these. */
  predicate Shows(lines: seq<string>, line: string) {
    exists i :: 0 <= i < |lines| && Trim(lines[i]) == Trim(line)
  }

  lemma {:induction false} TrimLeftShows(s: string, line: string)
    requires Shows(Split(s), line) && Trim(line) != ""
    ensures Shows(Split(TrimLeft(s)), line)
  {
    hide IsSpace, Trim;
    if s != "" && IsSpace(s[0]) {
      var rest := Split(s[1..]);
      var i :| 0 <= i < |Split(s)| && Trim(Split(s)[i]) == Trim(line);
      BlankBefore(s[0], rest[0]);
      TrimOfNothing();
      if s[0] == '\n' {
        assert i > 0 && rest[i - 1] == Split(s)[i];
      } else {
        assert Trim(rest[i]) == Trim(line);
      }
      TrimLeftShows(s[1..], line);
    }
  }

  lemma TrimOfNothing()
    ensures Trim("") == ""
  {
  }

  lemma {:induction false} TrimRightShows(s: string, line: string)
    requires Shows(Split(s), line) && Trim(line) != ""
    ensures Shows(Split(TrimRight(s)), line)
  {
    hide IsSpace, Trim, Split;
    if s != "" && IsSpace(s[|s| - 1]) {
      var c, front := s[|s| - 1], s[..|s| - 1];
      var a := Split(front);
      SplitOfSnoc(front, c);
      assert front + [c] == s;
      BlankAfter(a[|a| - 1], c);
      TrimOfNothing();
      var i :| 0 <= i < |Split(s)| && Trim(Split(s)[i]) == Trim(line);
      assert i < |a| && Trim(a[i]) == Trim(line);
      TrimRightShows(front, line);
    }
  }

  /** The text that is left shows every line but blank ones and those of metadata, and no metadata. */
  lemma StrippedShows(body: string, line: string)
    ensures line in Split(Stripped(body)) ==> !OpensField(line)
    ensures line in Split(body) && !OpensField(line) && Trim(line) != "" ==> Shows(Split(Stripped(body)), line)
  {
    FieldsAreMeta(line);
    StrippedIsClean(body);
    hide IsMeta, OpensField, Split, Trim, TrimLeft, TrimRight, Keep;
    if line in Split(body) && !OpensField(line) && Trim(line) != "" {
      var kept := Keep(Split(body));
      KeptLines(Split(body));
      forall i | 0 <= i < |kept| ensures OneLine(kept[i]) {
        assert kept[i] in Split(body);
      }
      SplitOfJoin(kept);
      assert Shows(kept, line);
      TrimLeftShows(Join(kept), line);
      TrimRightShows(TrimLeft(Join(kept)), line);
      TrimIsBoth(Join(kept));
    }
  }

  /** A body without metadata lines and outer blanks is left alone; in particular stripping twice is stripping once. */
  lemma StrippedTwice(body: string)
    ensures Stripped(Stripped(body)) == Stripped(body)
    ensures NoMeta(body) && Trimmed(body) ==> Stripped(body) == body
  {
    hide IsMeta, Split, Trim, Trimmed;
    StrippedIsClean(body);
    CleanIsKept(Stripped(body));
    if NoMeta(body) && Trimmed(body) {
      CleanIsKept(body);
    }
  }

  lemma CleanIsKept(s: string)
    requires NoMeta(s) && Trimmed(s)
    ensures Stripped(s) == s
  {
    hide IsMeta, Split, Trim;
    KeepAll(Split(s));
    JoinOfSplit(s);
    TrimOfTrimmed(s);
  }

  // ----- the stamp

  predicate IsHex(c: char) {
    '0' <= c <= '9' || 'a' <= c <= 'f'
  }

  predicate IsShortId(id: string) {
    |id| == 8 && forall i :: 0 <= i < 8 ==> IsHex(id[i])
  }

  function Stamp(id: string): string {
    TASK_ID + " " + id
  }

  /** The body stampTaskID writes back. */
  function Stamped(id: string, body: string): string {
    Stamp(id) + "\n" + body
  }

  lemma StampIsMeta(id: string)
    requires IsShortId(id)
    ensures IsMeta(Stamp(id)) && OneLine(Stamp(id))
  {
    TrimOfTrimmed(Stamp(id));
    assert Stamp(id) == TASK_ID + (" " + id);
  }

  /** The stamp does not show in what is left of the body. */
  lemma StampIsStripped(id: string, body: string)
    requires IsShortId(id)
    ensures Stripped(Stamped(id, body)) == Stripped(body)
  {
    hide IsMeta, Split, Trim, Stamp, IsShortId, Keep;
    StampIsMeta(id);
    SplitAtBreak(Stamp(id), body);
    KeepCons(Stamp(id), Split(body));
    assert [] + Keep(Split(body)) == Keep(Split(body));
  }
}
