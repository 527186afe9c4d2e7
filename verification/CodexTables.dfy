/**
 * What a run of the harness pipeline does to the tables of a Codex config: the tables named
 * mcp_servers.lightwave go, two sections take their settings, and everything else reads as before.
 */
module CodexTables {
  import opened Text
  import opened SectionEditor
  import opened SectionReading
  import opened CodexConfig
  import opened CodexFixpoint

  // ----- the names of a table

  /** The parts of a text between its dots. */
  function SplitDots(s: string): (names: seq<string>)
    ensures |names| >= 1
  {
    if s == "" then [""] else
    var rest := SplitDots(s[1..]);
    if s[0] == '.' then [""] + rest else [[s[0]] + rest[0]] + rest[1..]
  }

  function JoinDots(names: seq<string>): string
    requires names != []
  {
    if |names| == 1 then names[0] else names[0] + "." + JoinDots(names[1..])
  }

  /** The names a whole header spells, quotes aside: of `["a".b]`, a and b. */
  function Names(header: string): seq<string> {
    var h := Unquoted(header);
    if |h| < 2 || h[0] != '[' || h[|h| - 1] != ']' then [] else SplitDots(h[1..|h| - 1])
  }

  /** The server's own table or one below it. */
  predicate NamesServer(names: seq<string>) {
    FirstAre(names, "mcp_servers", "lightwave")
  }

  lemma {:induction false} SplitThenJoin(s: string)
    ensures JoinDots(SplitDots(s)) == s
  {
    if s != "" {
      SplitThenJoin(s[1..]);
      var rest := SplitDots(s[1..]);
      if s[0] == '.' {
        assert ([""] + rest)[1..] == rest;
      } else if |rest| > 1 {
        assert SplitDots(s)[1..] == rest[1..];
        assert [s[0]] + (rest[0] + "." + JoinDots(rest[1..])) == ([s[0]] + rest[0]) + "." + JoinDots(rest[1..]);
      }
    }
  }

  lemma {:induction false} SplitOfName(a: string)
    requires '.' !in a
    ensures SplitDots(a) == [a]
  {
    if a != "" {
      SplitOfName(a[1..]);
      assert [a[0]] + a[1..] == a;
    }
  }

  lemma {:induction false} SplitAtDot(a: string, b: string)
    requires '.' !in a
    ensures SplitDots(a + "." + b) == [a] + SplitDots(b)
  {
    var s := a + "." + b;
    if a == "" {
      assert s[1..] == b;
    } else {
      SplitAtDot(a[1..], b);
      assert s[1..] == a[1..] + "." + b;
      assert [a[0]] + a[1..] == a;
      var rest := SplitDots(s[1..]);
      assert rest[1..] == SplitDots(b);
    }
  }

  predicate FirstAre(names: seq<string>, a: string, b: string) {
    |names| >= 2 && names[0] == a && names[1] == b
  }

  lemma SplitOfTwo(s: string, a: string, b: string)
    requires '.' !in a && '.' !in b && (s == a + "." + b || a + "." + b + "." <= s)
    ensures FirstAre(SplitDots(s), a, b)
  {
    hide SplitDots;
    var ab := a + "." + b;
    if s == ab {
      SplitAtDot(a, b);
      SplitOfName(b);
    } else {
      var c := s[|ab + "."|..];
      assert s == a + "." + (b + "." + c);
      SplitAtDot(a, b + "." + c);
      SplitAtDot(b, c);
    }
  }

  lemma TwoOfSplit(s: string, a: string, b: string)
    requires FirstAre(SplitDots(s), a, b)
    ensures s == a + "." + b || a + "." + b + "." <= s
  {
    hide SplitDots;
    SplitThenJoin(s);
    var more := SplitDots(s)[1..];
    assert more[0] == b;
    assert s == a + "." + JoinDots(more);
    if |more| > 1 {
      assert s == a + "." + (b + "." + JoinDots(more[1..])) == a + "." + b + "." + JoinDots(more[1..]);
    }
  }

  lemma UnquotedCons(c: char, s: string)
    ensures Unquoted([c] + s) == (if c == '\"' || c == '\'' then "" else [c]) + Unquoted(s)
  {
    assert ([c] + s)[1..] == s;
  }

  lemma {:induction false} UnquotedConcat(a: string, b: string)
    ensures Unquoted(a + b) == Unquoted(a) + Unquoted(b)
  {
    if a == "" {
      assert a + b == b;
    } else {
      hide Unquoted;
      var c, rest := a[0], a[1..];
      var first := if c == '\"' || c == '\'' then "" else [c];
      UnquotedConcat(rest, b);
      UnquotedCons(c, rest);
      UnquotedCons(c, rest + b);
      Regrouped([c], rest, b);
      Regrouped(first, Unquoted(rest), Unquoted(b));
      assert a == [c] + rest;
    }
  }

  lemma Regrouped(a: string, b: string, c: string)
    ensures a + (b + c) == a + b + c
  {
  }

  /** Quotes aside a whole header is still one. */
  lemma UnquotedHeader(line: string)
    requires IsHeader(line)
    ensures var h := Unquoted(Trim(line)); |h| >= 2 && h[0] == '[' && h[|h| - 1] == ']'
  {
    hide Trim;
    var t := Trim(line);
    var mid := t[1..|t| - 1];
    assert t == "[" + mid + "]";
    UnquotedConcat("[" + mid, "]");
    UnquotedConcat("[", mid);
    assert Unquoted("[") == "[" && Unquoted("]") == "]" by { UnquotedStays("["); UnquotedStays("]"); }
  }

  lemma InBrackets(h: string, name: string)
    requires |h| >= 2 && h[0] == '[' && h[|h| - 1] == ']'
    ensures h == "[" + name + "]" <==> h[1..|h| - 1] == name
    ensures "[" + name + "." <= h <==> name + "." <= h[1..|h| - 1]
  {
    var inner := h[1..|h| - 1];
    assert h == "[" + inner + "]";
    var p, q := "[" + name + ".", name + ".";
    if p <= h {
      assert p[|p| - 1] == '.';
      assert |p| < |h|;
      assert q == p[1..] == h[1..|p|] == inner[..|q|];
    }
    if q <= inner {
      assert h[..|p|] == "[" + inner[..|q|];
    }
  }

  /** A bracketed text starts with two names exactly if it is their header or goes on with a dot behind them. */
  lemma FirstNames(h: string, a: string, b: string)
    requires '.' !in a && '.' !in b && |h| >= 2 && h[0] == '[' && h[|h| - 1] == ']'
    ensures FirstAre(SplitDots(h[1..|h| - 1]), a, b) <==> h == "[" + (a + "." + b) + "]" || "[" + (a + "." + b) + "." <= h
  {
    hide SplitDots, FirstAre;
    var inner := h[1..|h| - 1];
    InBrackets(h, a + "." + b);
    if inner == a + "." + b || a + "." + b + "." <= inner {
      SplitOfTwo(inner, a, b);
    }
    if FirstAre(SplitDots(inner), a, b) {
      TwoOfSplit(inner, a, b);
    }
  }

  lemma OwnNames()
    ensures '.' !in "mcp_servers" && '.' !in "lightwave"
    ensures "[mcp_servers.lightwave]" == "[" + ("mcp_servers" + "." + "lightwave") + "]"
    ensures "[mcp_servers.lightwave." == "[" + ("mcp_servers" + "." + "lightwave") + "."
  {
  }

  /** The filter drops a table, written with a whole header, if and only if its first two names are mcp_servers and lightwave. */
  lemma DroppedByName(line: string)
    requires IsHeader(line)
    ensures IsOwnedHeader(line) <==> NamesServer(Names(Trim(line)))
  {
    UnquotedHeader(line);
    hide Trim, Unquoted, SplitDots;
    OwnNames();
    FirstNames(Unquoted(Trim(line)), "mcp_servers", "lightwave");
  }

  // ----- tables as blocks of lines

  /** How many lines precede the first header. */
  function FrontLength(lines: seq<string>): (n: nat)
    ensures n <= |lines| && (n < |lines| ==> IsTableLine(lines[n]))
    ensures forall i :: 0 <= i < n ==> !IsTableLine(lines[i])
  {
    if lines == [] || IsTableLine(lines[0]) then 0 else 1 + FrontLength(lines[1..])
  }

  /** The tables, each a header and the lines up to the next one. */
  function Tables(lines: seq<string>): (tables: seq<seq<string>>)
    requires lines != [] ==> IsTableLine(lines[0])
    ensures forall i :: 0 <= i < |tables| ==> tables[i] != [] && IsTableLine(tables[i][0])
  {
    if lines == [] then [] else
    var n := FrontLength(lines[1..]);
    [lines[..n + 1]] + Tables(lines[n + 1..])
  }

  function Flat(tables: seq<seq<string>>): seq<string> {
    if tables == [] then [] else tables[0] + Flat(tables[1..])
  }

  /** The tables that are not the server's, in order. */
  function Others(tables: seq<seq<string>>): seq<seq<string>>
    requires forall i :: 0 <= i < |tables| ==> tables[i] != []
  {
    if tables == [] then []
    else (if NamesServer(Names(Trim(tables[0][0]))) then [] else [tables[0]]) + Others(tables[1..])
  }

  lemma {:induction false} KeptOfPlain(lines: seq<string>, drop: bool)
    requires forall i :: 0 <= i < |lines| ==> !IsTableLine(lines[i])
    ensures Kept(lines, drop) == (if drop then [] else lines) && DropStateAfter(lines, drop) == drop
  {
    hide IsTableLine, IsOwnedHeader;
    if lines != [] {
      KeptOfPlain(lines[1..], drop);
    }
  }

  lemma KeptTable(table: seq<string>, drop: bool)
    requires table != [] && IsHeader(table[0]) && forall i :: 1 <= i < |table| ==> !IsTableLine(table[i])
    ensures Kept(table, drop) == (if NamesServer(Names(Trim(table[0]))) then [] else table)
  {
    hide IsTableLine, IsOwnedHeader, IsHeader, Trim, Names, NamesServer, Kept, DropStateAfter;
    HeaderIsTableLine(table[0]);
    DroppedByName(table[0]);
    assert table == [table[0]] + table[1..];
    KeptOfPlain(table[1..], IsOwnedHeader(table[0]));
    KeptCons(table[0], table[1..], drop);
  }

  /** The lines of the first table, and the rest. */
  lemma TablesCons(lines: seq<string>) returns (table: seq<string>, rest: seq<string>)
    requires lines != [] && IsTableLine(lines[0])
    ensures lines == table + rest && table != [] && table[0] == lines[0] && |rest| < |lines| && (rest != [] ==> IsTableLine(rest[0]))
    ensures forall i :: 1 <= i < |table| ==> !IsTableLine(table[i])
    ensures Tables(lines) == [table] + Tables(rest)
  {
    hide IsTableLine;
    var n := FrontLength(lines[1..]);
    table, rest := lines[..n + 1], lines[n + 1..];
    forall i | 1 <= i < |table| ensures !IsTableLine(table[i]) { assert table[i] == lines[1..][i - 1]; }
  }

  lemma {:induction false} TablesAreLines(lines: seq<string>)
    requires lines != [] ==> IsTableLine(lines[0])
    ensures Flat(Tables(lines)) == lines
    decreases |lines|
  {
    if lines != [] {
      var table, rest := TablesCons(lines);
      TablesAreLines(rest);
      hide Tables, IsTableLine;
      FlatCons(table, Tables(rest));
    }
  }

  lemma FlatCons(table: seq<string>, tables: seq<seq<string>>)
    ensures Flat([table] + tables) == table + Flat(tables)
  {
    assert ([table] + tables)[1..] == tables;
  }

  lemma OthersCons(table: seq<string>, tables: seq<seq<string>>)
    requires table != [] && forall i :: 0 <= i < |tables| ==> tables[i] != []
    ensures Flat(Others([table] + tables)) == (if NamesServer(Names(Trim(table[0]))) then [] else table) + Flat(Others(tables))
  {
    hide NamesServer, Names, Trim;
    assert ([table] + tables)[1..] == tables;
    var others := Others(tables);
    assert ([table] + others)[1..] == others;
    assert [] + others == others;
  }

  lemma WholeRest(table: seq<string>, rest: seq<string>)
    requires HeadersWhole(table + rest)
    ensures HeadersWhole(rest)
  {
    hide IsTableLine, IsHeader;
    assert forall i :: 0 <= i < |rest| ==> rest[i] == (table + rest)[|table| + i];
  }

  lemma {:induction false} KeptTables(lines: seq<string>, drop: bool)
    requires HeadersWhole(lines) && (lines != [] ==> IsTableLine(lines[0]))
    ensures Kept(lines, drop) == Flat(Others(Tables(lines)))
    decreases |lines|
  {
    if lines == [] {
      KeptNil(drop);
    } else {
      assert IsHeader(lines[0]);
      hide IsTableLine, IsHeader, Trim, Names, NamesServer, Kept, DropStateAfter, Tables, Others, Flat, HeadersWhole;
      var table, rest := TablesCons(lines);
      KeptTable(table, drop);
      CodexFixpoint.KeptConcat(table, rest, drop);
      WholeRest(table, rest);
      KeptTables(rest, DropStateAfter(table, drop));
      OthersCons(table, Tables(rest));
    }
  }

  /** The filter keeps the lines before the first table and every table of another name, verbatim and in order, and nothing else. */
  lemma OtherTablesStay(lines: seq<string>)
    requires HeadersWhole(lines)
    ensures var n := FrontLength(lines);
      && lines == lines[..n] + Flat(Tables(lines[n..]))
      && Kept(lines, false) == lines[..n] + Flat(Others(Tables(lines[n..])))
  {
    hide IsTableLine, IsOwnedHeader, IsHeader, Trim, Kept, DropStateAfter;
    var n := FrontLength(lines);
    assert lines == lines[..n] + lines[n..];
    TablesAreLines(lines[n..]);
    KeptOfPlain(lines[..n], false);
    CodexFixpoint.KeptConcat(lines[..n], lines[n..], false);
    KeptTables(lines[n..], false);
  }

  // ----- reading what is left

  /** A header of no table and no list of tables of the server. */
  predicate Foreign(header: string) {
    !NamesServer(Names(header)) && !("[[mcp_servers.lightwave." <= Unquoted(header))
  }

  lemma ReadLine(line: string, lines: seq<string>, current: string, header: string, key: string)
    ensures Read([line] + lines, current, header, key) ==
            if IsHeader(line) then Read(lines, Trim(line), header, key)
            else if current == header && TomlKey(line) == Some(key) then Some(ValueText(line))
            else Read(lines, current, header, key)
  {
    hide IsHeader, Trim, TomlKey, ValueText;
    assert ([line] + lines)[1..] == lines;
  }

  /** Dropping the server's tables changes no value of another table. */
  lemma {:induction false} ReadKept(lines: seq<string>, drop: bool, current: string, current': string, header: string, key: string)
    requires HeadersWhole(lines) && Foreign(header) && (if drop then current != header else current == current')
    ensures Read(Kept(lines, drop), current', header, key) == Read(lines, current, header, key)
  {
    hide IsTableLine, IsOwnedHeader, IsHeader, Trim, Names, NamesServer, TomlKey, ValueText, Read, Kept;
    if lines == [] {
      KeptNil(drop);
      ReadNothing(current, header, key);
      ReadNothing(current', header, key);
    } else {
      var line, rest := lines[0], lines[1..];
      assert lines == [line] + rest;
      KeptCons(line, rest, drop);
      ReadLine(line, rest, current, header, key);
      assert [] + Kept(rest, true) == Kept(rest, true);
      if IsTableLine(line) {
        DroppedByName(line);
        var owned := IsOwnedHeader(line);
        ReadKept(rest, owned, Trim(line), if owned then current' else Trim(line), header, key);
        ReadLine(line, Kept(rest, false), current', header, key);
      } else {
        if IsHeader(line) { HeaderIsTableLine(line); }
        ReadKept(rest, drop, current, current', header, key);
        ReadLine(line, Kept(rest, drop), current', header, key);
      }
    }
  }

  lemma ReadNothing(current: string, header: string, key: string)
    ensures Read([], current, header, key) == None
  {
  }

  /** Empty lines say nothing. */
  lemma {:induction false} ReadStripped(lines: seq<string>, current: string, header: string, key: string)
    ensures Read(StripEmpty(lines), current, header, key) == Read(lines, current, header, key)
    decreases |lines|
  {
    hide IsHeader, Trim, TomlKey, ValueText;
    if lines != [] && lines[|lines| - 1] == "" {
      var front := lines[..|lines| - 1];
      ReadStripped(front, current, header, key);
      assert lines == front + [""];
      ReadConcat(front, [""], current, header, key);
      BlankLineReads();
    }
  }

  /** The rendered tables say nothing about another table, whatever stands before them. */
  lemma {:induction false} ReadOwned(lines: seq<string>, current: string, header: string, key: string)
    requires current != header || (lines != [] && IsHeader(lines[0])) || lines == []
    requires Foreign(header)
    requires forall i :: 0 <= i < |lines| && IsTableLine(lines[i]) ==> IsHeader(lines[i]) && (IsOwnedHeader(lines[i]) || IsListHeader(lines[i]))
    ensures Read(lines, current, header, key) == None
  {
    hide IsTableLine, IsOwnedHeader, IsHeader, IsListHeader, Trim, Names, TomlKey, ValueText, Foreign;
    if lines != [] {
      if IsHeader(lines[0]) {
        HeaderIsTableLine(lines[0]);
        OwnedIsNotForeign(lines[0]);
      }
      ReadOwned(lines[1..], if IsHeader(lines[0]) then Trim(lines[0]) else current, header, key);
    }
  }

  lemma OwnedIsNotForeign(line: string)
    requires IsHeader(line) && (IsOwnedHeader(line) || IsListHeader(line))
    ensures !Foreign(Trim(line))
  {
    DroppedByName(line);
    hide Trim, IsHeader, Names, Unquoted, IsOwnedHeader;
  }

  /** The MCP step changes no value of a table that is not the server's. */
  lemma McpSpares(lib: Toml, text: string, fragment: Fragment, header: string, key: string)
    requires Lawful(lib) && fragment.server.Some? && BareKeys(fragment.settings) && HeadersWhole(Lines(text)) && Foreign(header)
    ensures ReadText(WithServer(lib, Edited(text, SHELL_SECTION, fragment.settings), MergedBy(lib, text, fragment)), header, key) ==
            Read(EditLines(Lines(text), SHELL_SECTION, fragment.settings), "", header, key)
  {
    hide *;
    var table := MergedBy(lib, text, fragment);
    var shell := EditLines(Lines(text), SHELL_SECTION, fragment.settings);
    var lines := FirstSteps(lib, text, fragment);
    NormalIsProper(lines, fragment);
    WithTableIsProper(lib, lines, table);
    LinesOfText(WithTable(lib, lines, table));
    ShellSteps(text, fragment.settings);
    ReadKept(shell, false, "", "", header, key);
    ReadStripped(Kept(shell, false), "", header, key);
    ReadWithTable(lib, lines, table, header, key);
    ReadTextIs(WithServer(lib, Edited(text, SHELL_SECTION, fragment.settings), table), header, key);
  }

  lemma ReadTextIs(text: string, header: string, key: string)
    ensures ReadText(text, header, key) == Read(Lines(text), "", header, key)
  {
  }

  lemma ReadWithTable(lib: Toml, lines: seq<string>, table: Table, header: string, key: string)
    requires Lawful(lib) && Foreign(header) && IsHeader(OwnedLines(lib, table)[0]) && OwnedLines(lib, table) != []
    ensures Read(WithTable(lib, lines, table), "", header, key) == Read(lines, "", header, key)
  {
    LawAt(lib, table);
    var owned := OwnedLines(lib, table);
    hide Lawful, OwnedLines, IsTableLine, IsOwnedHeader, IsListHeader, IsHeader, Foreign, Read, HeaderAfter, EndsWell, Blank, OneLine;
    ReadConcat(lines + [""], owned, "", header, key);
    ReadConcat(lines, [""], "", header, key);
    ReadOwned(owned, HeaderAfter(lines + [""], ""), header, key);
    ReadEmptyLine(HeaderAfter(lines, ""), header, key);
  }

  lemma ReadEmptyLine(current: string, header: string, key: string)
    ensures Read([""], current, header, key) == None
  {
    BlankLineReads();
    hide IsHeader, TomlKey;
    assert Read([""][1..], current, header, key) == None;
  }

  // ----- a whole run

  /** What a key of a table reads as after a run. */
  function Expected(text: string, fragment: Fragment, header: string, key: string): Option<string> {
    if header == "[desktop]" && fragment.root.Path? && key == "git-worktree-root" then Some(Quote(fragment.root.path))
    else if header == "[shell_environment_policy.set]" && key in fragment.settings then Some(Quote(fragment.settings[key]))
    else ReadText(text, header, key)
  }

  /**
   * A run that succeeds: outside the server's tables every key of every table has the value it had, but for the settings of
   * the shell section and the desktop's root. And the server's table is the merge of what was there and what was asked for.
   */
  lemma RunReads(lib: Toml, text: string, fragment: Fragment, result: string, header: string, key: string)
    requires Lawful(lib) && BareKeys(fragment.settings) && HeadersWhole(Lines(text)) && Applied(lib, text, fragment) == Ok(result)
    requires Foreign(header)
    ensures ReadText(result, header, key) == Expected(text, fragment, header, key)
  {
    hide *;
    RunSteps(lib, text, fragment, result);
    var shell := Edited(text, SHELL_SECTION, fragment.settings);
    SectionNames();
    BareIsGood(fragment.settings);
    EditedTextIsMapUpdate(text, SHELL_SECTION, fragment.settings, header, key);
    var mcp := shell;
    if fragment.server.Some? {
      mcp := WithServer(lib, shell, MergedBy(lib, text, fragment));
      McpSpares(lib, text, fragment, header, key);
      ReadShell(text, fragment.settings, header, key);
    }
    if fragment.root.Path? {
      RootKeyIsBare(fragment.root.path);
      BareIsGood(RootSettings(fragment.root.path));
      EditedTextIsMapUpdate(mcp, DESKTOP_SECTION, RootSettings(fragment.root.path), header, key);
    }
    ExpectedIs(text, fragment, header, key);
  }

  lemma ReadShell(text: string, settings: map<string, string>, header: string, key: string)
    requires BareKeys(settings) && HeadersWhole(Lines(text))
    ensures ReadText(Edited(text, SHELL_SECTION, settings), header, key) == Read(EditLines(Lines(text), SHELL_SECTION, settings), "", header, key)
  {
    hide *;
    ShellSteps(text, settings);
    TextOfEdited(text, SHELL_SECTION, settings);
    LinesOfText(EditLines(Lines(text), SHELL_SECTION, settings));
    ReadTextIs(Edited(text, SHELL_SECTION, settings), header, key);
  }

  lemma BareIsGood(settings: map<string, string>)
    requires BareKeys(settings)
    ensures GoodKeys(settings)
  {
  }

  lemma SectionNames()
    ensures OneLine(SHELL_SECTION) && OneLine(DESKTOP_SECTION)
  {
  }

  lemma SettingNames(path: string)
    ensures Header(DESKTOP_SECTION) == "[desktop]" && Header(SHELL_SECTION) == "[shell_environment_policy.set]"
    ensures RootSettings(path).Keys == {"git-worktree-root"} && RootSettings(path)["git-worktree-root"] == path
  {
  }

  lemma ExpectedIs(text: string, fragment: Fragment, header: string, key: string)
    ensures Expected(text, fragment, header, key) ==
            if fragment.root.Path? && header == Header(DESKTOP_SECTION) && key in RootSettings(fragment.root.path)
            then Some(Quote(RootSettings(fragment.root.path)[key]))
            else if header == Header(SHELL_SECTION) && key in fragment.settings then Some(Quote(fragment.settings[key]))
            else ReadText(text, header, key)
  {
    hide Quote, ReadText, Header, RootSettings;
    SettingNames(if fragment.root.Path? then fragment.root.path else "");
  }

  /** The text a run writes: the shell section, the merged table behind what is not the server's, the desktop's root. */
  function Written(lib: Toml, text: string, fragment: Fragment): string {
    var shell := Edited(text, SHELL_SECTION, fragment.settings);
    var mcp := if fragment.server.Some? then WithServer(lib, shell, MergedBy(lib, text, fragment)) else shell;
    if fragment.root.Path? then Edited(mcp, DESKTOP_SECTION, RootSettings(fragment.root.path)) else mcp
  }

  /** A run succeeds exactly if the root is absent or an absolute path and the text is valid around the merge and at the end. */
  lemma RunSucceedsExactly(lib: Toml, text: string, fragment: Fragment)
    ensures var shell := Edited(text, SHELL_SECTION, fragment.settings);
      Applied(lib, text, fragment).Ok? <==>
        && fragment.root != NotText && (fragment.root.Path? ==> fragment.root.path != "" && fragment.root.path[0] == '/')
        && (fragment.server.Some? ==> lib.valid(shell) && lib.valid(WithServer(lib, shell, MergedBy(lib, text, fragment))))
        && lib.valid(Written(lib, text, fragment))
    ensures Applied(lib, text, fragment).Ok? ==> Applied(lib, text, fragment).value == Written(lib, text, fragment)
  {
    hide Edited, WithServer, Merge, RootSettings;
  }

  /** What a run that succeeds returns. */
  lemma RunSteps(lib: Toml, text: string, fragment: Fragment, result: string)
    requires Applied(lib, text, fragment) == Ok(result)
    ensures var shell := Edited(text, SHELL_SECTION, fragment.settings);
      var mcp := if fragment.server.Some? then WithServer(lib, shell, MergedBy(lib, text, fragment)) else shell;
      && (fragment.server.Some? ==> lib.valid(shell) && lib.valid(mcp)) && lib.valid(result)
      && result == (if fragment.root.Path? then Edited(mcp, DESKTOP_SECTION, RootSettings(fragment.root.path)) else mcp)
  {
    RunSucceedsExactly(lib, text, fragment);
    hide Edited, WithServer, Merge, RootSettings, Applied;
  }

  /** The server's fields as the library reads them after a run. */
  lemma RunMerges(lib: Toml, text: string, fragment: Fragment, result: string)
    requires Lawful(lib) && Applied(lib, text, fragment) == Ok(result) && fragment.server.Some?
    ensures Echoes(lib, lib.server(Edited(text, SHELL_SECTION, fragment.settings)), MergedBy(lib, text, fragment), lib.server(result))
  {
    RunSteps(lib, text, fragment, result);
    hide Edited, WithServer, Merge, RootSettings, Lawful, Applied, Echoes;
    var shell := Edited(text, SHELL_SECTION, fragment.settings);
    EchoAt(lib, shell, MergedBy(lib, text, fragment));
    if fragment.root.Path? {
      DesktopKeepsServer(lib, WithServer(lib, shell, MergedBy(lib, text, fragment)), fragment.root.path);
    }
  }
}
