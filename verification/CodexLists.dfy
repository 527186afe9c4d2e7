/**
 * Lists of tables in the server's table. Their headers are not taken for the server's own, so every run keeps the
 * rendered ones and renders them again: the pipeline settles exactly if no merged field holds such a list.
 */
module CodexLists {
  import opened Text
  import opened SectionEditor
  import opened SectionReading
  import opened CodexConfig
  import opened CodexFixpoint

  // ----- counting list headers

  function Count(lines: seq<string>): nat {
    if lines == [] then 0 else (if IsListHeader(lines[0]) then 1 else 0) + Count(lines[1..])
  }

  lemma CountNil()
    ensures Count([]) == 0
  {
  }

  lemma CountOne(line: string)
    ensures Count([line]) == if IsListHeader(line) then 1 else 0
  {
    hide IsListHeader;
    assert [line][1..] == [];
  }

  lemma {:induction false} CountConcat(a: seq<string>, b: seq<string>)
    ensures Count(a + b) == Count(a) + Count(b)
  {
    hide IsListHeader;
    if a == [] {
      assert a + b == b;
    } else {
      CountConcat(a[1..], b);
      assert (a + b)[1..] == a[1..] + b;
    }
  }

  lemma {:induction false} CountIsSome(lines: seq<string>)
    ensures Count(lines) > 0 <==> exists i :: 0 <= i < |lines| && IsListHeader(lines[i])
  {
    hide IsListHeader;
    if lines != [] {
      CountIsSome(lines[1..]);
      forall i | 0 < i < |lines| ensures lines[i] == lines[1..][i - 1] {}
      if j :| 0 <= j < |lines[1..]| && IsListHeader(lines[1..][j]) {
        assert IsListHeader(lines[j + 1]);
      }
    }
  }

  /** The filter never takes a list header for one of its own. */
  lemma ListHeaderIsForeign(line: string)
    requires IsListHeader(line)
    ensures IsTableLine(line) && !IsOwnedHeader(line)
  {
    var h := Unquoted(Trim(line));
    hide Trim, Unquoted;
    assert h[1] == '[';
    assert "[mcp_servers.lightwave]"[1] == 'm' && "[mcp_servers.lightwave."[1] == 'm';
  }

  lemma {:induction false} CountKept(lines: seq<string>, drop: bool)
    ensures Count(Kept(lines, drop)) == Count(lines)
  {
    hide IsListHeader, IsTableLine, IsOwnedHeader, Kept;
    if lines == [] {
      KeptNil(drop);
    } else {
      var d := DropAfter(lines[0], drop);
      assert lines == [lines[0]] + lines[1..];
      KeptCons(lines[0], lines[1..], drop);
      CountKept(lines[1..], d);
      CountConcat(if d then [] else [lines[0]], Kept(lines[1..], d));
      CountConcat([lines[0]], lines[1..]);
      CountOne(lines[0]);
      CountNil();
      if IsListHeader(lines[0]) {
        ListHeaderIsForeign(lines[0]);
      }
    }
  }

  lemma EmptyIsNoList()
    ensures !IsListHeader("") && Count([""]) == 0
  {
    EmptyIsNoTable();
    CountOne("");
  }

  lemma {:induction false} CountStrip(lines: seq<string>)
    ensures Count(StripEmpty(lines)) == Count(lines)
    decreases |lines|
  {
    hide IsListHeader, Count;
    if lines != [] && lines[|lines| - 1] == "" {
      var front := lines[..|lines| - 1];
      CountStrip(front);
      assert lines == front + [""];
      CountConcat(front, [""]);
      EmptyIsNoList();
    }
  }

  /** Lines without headers, every one of which is whole, hold no list header. */
  lemma NoHeadersNoLists(lines: seq<string>)
    requires NoHeaders(lines) && HeadersWhole(lines)
    ensures Count(lines) == 0
  {
    hide IsTableLine, IsHeader, Count;
    CountIsSome(lines);
  }

  lemma ForeignIsNoList(line: string, section: string)
    requires EditedSection(section) && Trim(line) == Header(section)
    ensures !IsListHeader(line)
  {
    ForeignNames(section);
    var h := Header(section);
    UnquotedStays(h);
    hide Trim, Unquoted;
    assert h[1] == section[0];
    assert section[0] != '[' by { SectionStarts(section); }
    assert "[[mcp_servers.lightwave."[1] == '[';
  }

  lemma SectionStarts(section: string)
    requires EditedSection(section)
    ensures section[0] == 's' || section[0] == 'd'
  {
  }

  lemma WholeParts(a: seq<string>, b: seq<string>)
    requires HeadersWhole(a + b)
    ensures HeadersWhole(a) && HeadersWhole(b)
  {
    hide IsTableLine, IsHeader;
    forall i | 0 <= i < |a| ensures (a + b)[i] == a[i] {}
    forall i | 0 <= i < |b| ensures (a + b)[|a| + i] == b[i] {}
  }

  lemma WholeConcat(a: seq<string>, b: seq<string>)
    requires HeadersWhole(a) && HeadersWhole(b)
    ensures HeadersWhole(a + b)
  {
    hide IsTableLine, IsHeader;
  }

  /** Editing one of the harness's sections adds and removes no list header. */
  lemma CountEdit(lines: seq<string>, section: string, settings: map<string, string>)
    requires BareKeys(settings) && EditedSection(section) && HeadersWhole(lines)
    ensures Count(EditLines(lines, section, settings)) == Count(lines)
  {
    hide Trim, IsHeader, EditBody, Header, EditLines, Parts, GoodKey, Count, HeadersWhole, EditedSection, IsListHeader;
    EditedKeepsHeaders(lines, section, settings);
    EditedSectionsAreForeign(section);
    if HeaderAt(lines, Header(section)) < |lines| {
      var before, line, body, rest := CutAtSection(lines, section);
      EditOfParts(lines, section, settings, before, line, body, rest);
      PartsHold(lines, section, before, line, body, rest);
      EditedBodyReads(body, settings, "", "");
      CountBody(before + [line], body, rest);
      CountBody(before + [line], EditBody(body, settings), rest);
    } else {
      var gap, tables := AppendedParts(lines, section, settings);
      var written := Assignments(settings, SortedKeys(settings.Keys));
      ReadAssignments(settings, SortedKeys(settings.Keys), "", "");
      EmptyNoHeaders(gap);
      WholeParts(lines + gap, tables);
      WholeParts(lines, gap);
      WholeParts([Header(section)], written);
      NoHeadersNoLists(gap);
      NoHeadersNoLists(written);
      CountConcat(lines + gap, tables);
      CountConcat(lines, gap);
      CountConcat([Header(section)], written);
      CountOne(Header(section));
      HeaderIsHeader(section);
      ForeignIsNoList(Header(section), section);
    }
  }

  lemma CountBody(before: seq<string>, body: seq<string>, rest: seq<string>)
    requires NoHeaders(body) && HeadersWhole(before + body + rest)
    ensures Count(before + body + rest) == Count(before) + Count(rest)
  {
    hide Count, HeadersWhole, IsHeader;
    WholeParts(before + body, rest);
    WholeParts(before, body);
    NoHeadersNoLists(body);
    CountConcat(before + body, rest);
    CountConcat(before, body);
  }

  // ----- a run

  /** Any run on a server table: what it leaves, how many list headers more, and what is read from it. */
  lemma RunCounts(lib: Toml, text: string, fragment: Fragment, first: string) returns (lines: seq<string>)
    requires Lawful(lib) && BareKeys(fragment.settings) && HeadersWhole(Lines(text))
    requires fragment.server.Some? && Applied(lib, text, fragment) == Ok(first)
    ensures first == TextOf(lines) && Proper(lines) && HeadersWhole(lines) && Settled(lines, SHELL_SECTION, fragment.settings)
    ensures Count(lines) == Count(Lines(text)) + Count(OwnedLines(lib, MergedBy(lib, text, fragment)))
    ensures var shell := Edited(text, SHELL_SECTION, fragment.settings);
      && lib.valid(shell) && lib.valid(McpText(lib, shell, fragment.server.value))
      && lib.server(first) == lib.server(McpText(lib, shell, fragment.server.value))
  {
    hide TextOf, Edited, EditLines, RootSettings, Lines, GoodKey, WithServer, Lawful, WithTable, HeadersWhole, Merge, OwnedLines, Proper, Settled, Kept, StripEmpty, Count, Has, Normal;
    var shell := Edited(text, SHELL_SECTION, fragment.settings);
    var table := MergedBy(lib, text, fragment);
    var n := FirstSteps(lib, text, fragment);
    NormalParts(n, fragment);
    lines := WithTable(lib, n, table);
    WithTableCounts(lib, n, table);
    WithTableIsProper(lib, n, table);
    SettledWithTable(lib, n, table, SHELL_SECTION, fragment.settings);
    ShellCounts(text, fragment.settings);
    if fragment.root.Path? {
      var all, root := lines, RootSettings(fragment.root.path);
      DesktopKeepsServer(lib, McpText(lib, shell, fragment.server.value), fragment.root.path);
      lines := EditLines(all, DESKTOP_SECTION, root);
      DesktopCounts(all, fragment);
    }
  }

  lemma NormalParts(lines: seq<string>, fragment: Fragment)
    requires Normal(lines, fragment)
    ensures Proper(lines) && HeadersWhole(lines) && Settled(lines, SHELL_SECTION, fragment.settings)
  {
    hide IsTableLine, IsOwnedHeader, IsHeader, Settled;
  }

  lemma WithTableCounts(lib: Toml, lines: seq<string>, table: Table)
    requires Lawful(lib) && HeadersWhole(lines)
    ensures HeadersWhole(WithTable(lib, lines, table))
    ensures Count(WithTable(lib, lines, table)) == Count(lines) + Count(OwnedLines(lib, table))
  {
    hide OwnedLines, Lawful, IsTableLine, IsHeader, IsOwnedHeader, IsListHeader, Count, OneLine, EndsWell, Blank;
    LawAt(lib, table);
    var owned := OwnedLines(lib, table);
    EmptyIsNoTable();
    EmptyIsNoList();
    WholeConcat(lines, [""]);
    WholeConcat(lines + [""], owned);
    CountConcat(lines, [""]);
    CountConcat(lines + [""], owned);
  }

  lemma ShellCounts(text: string, settings: map<string, string>)
    requires BareKeys(settings) && HeadersWhole(Lines(text))
    ensures Count(StripEmpty(Kept(EditLines(Lines(text), SHELL_SECTION, settings), false))) == Count(Lines(text))
  {
    hide EditLines, Lines, Kept, StripEmpty, Count, HeadersWhole, GoodKey;
    CountEdit(Lines(text), SHELL_SECTION, settings);
    CountKept(EditLines(Lines(text), SHELL_SECTION, settings), false);
    CountStrip(Kept(EditLines(Lines(text), SHELL_SECTION, settings), false));
  }

  /** The desktop step: it keeps what was settled, whole and counted. */
  lemma DesktopCounts(all: seq<string>, fragment: Fragment)
    requires fragment.root.Path? && Proper(all) && HeadersWhole(all) && Settled(all, SHELL_SECTION, fragment.settings)
    ensures var root := RootSettings(fragment.root.path);
      var lines := EditLines(all, DESKTOP_SECTION, root);
      && Edited(TextOf(all), DESKTOP_SECTION, root) == TextOf(lines)
      && Proper(lines) && HeadersWhole(lines) && Settled(lines, SHELL_SECTION, fragment.settings) && Count(lines) == Count(all)
  {
    hide TextOf, Edited, EditLines, RootSettings, GoodKey, HeadersWhole, Proper, Settled, Count, AllOneLine, EndWell, Header, Trim, IsTableLine, IsHeader;
    var root := RootSettings(fragment.root.path);
    RootKeyIsBare(fragment.root.path);
    EditedSectionsAreForeign(DESKTOP_SECTION);
    EditedIsTextOf(all, DESKTOP_SECTION, root);
    ProperParts(all);
    EditedProper(all, DESKTOP_SECTION, root);
    EditedKeepsHeaders(all, DESKTOP_SECTION, root);
    EditOther(all, DESKTOP_SECTION, root, SHELL_SECTION, fragment.settings);
    CountEdit(all, DESKTOP_SECTION, root);
  }

  // ----- lists never settle

  /** A run that merges a list of tables leaves a text from which the next run merges one again and grows it. */
  lemma ListsNeverSettle(lib: Toml, text: string, fragment: Fragment, first: string)
    requires Lawful(lib) && BareKeys(fragment.settings) && HeadersWhole(Lines(text))
    requires !NoLists(lib, text, fragment) && Applied(lib, text, fragment) == Ok(first)
    ensures HeadersWhole(Lines(first)) && !NoLists(lib, first, fragment)
    ensures Count(Lines(first)) > Count(Lines(text)) && Applied(lib, first, fragment) != Ok(first)
  {
    hide TextOf, Edited, Lines, GoodKey, WithServer, Lawful, HeadersWhole, Merge, OwnedLines, Proper, Settled, Count, HasLists, EditLines;
    var shell := Edited(text, SHELL_SECTION, fragment.settings);
    var lines := RunCounts(lib, text, fragment, first);
    LinesOfText(lines);
    MergedAgain(lib, shell, fragment.server.value);
    SettledStays(lines, SHELL_SECTION, fragment.settings);
    EditedIsTextOf(lines, SHELL_SECTION, fragment.settings);
    ListsCount(lib, MergedBy(lib, text, fragment));
    if Applied(lib, first, fragment) == Ok(first) {
      var again := RunCounts(lib, first, fragment, first);
      LinesOfText(again);
      ListsCount(lib, MergedBy(lib, first, fragment));
      assert false;
    }
  }

  lemma ListsCount(lib: Toml, table: Table)
    requires Lawful(lib)
    ensures HasLists(lib, table) <==> Count(OwnedLines(lib, table)) > 0
  {
    hide OwnedLines, Lawful, IsListHeader, Count, HasLists;
    LawAt(lib, table);
    CountIsSome(OwnedLines(lib, table));
  }

  /** However often it runs, it adds at least one list header every time. */
  lemma {:induction false} ListsGrow(lib: Toml, fragment: Fragment, texts: seq<string>, n: nat)
    requires Lawful(lib) && BareKeys(fragment.settings) && n < |texts|
    requires HeadersWhole(Lines(texts[0])) && !NoLists(lib, texts[0], fragment)
    requires forall i :: 0 <= i < |texts| - 1 ==> Applied(lib, texts[i], fragment) == Ok(texts[i + 1])
    ensures HeadersWhole(Lines(texts[n])) && !NoLists(lib, texts[n], fragment)
    ensures Count(Lines(texts[n])) >= Count(Lines(texts[0])) + n
  {
    hide Lawful, HeadersWhole, NoLists, Count, Lines, Applied, GoodKey;
    if n > 0 {
      ListsGrow(lib, fragment, texts, n - 1);
      ListsNeverSettle(lib, texts[n - 1], fragment, texts[n]);
    }
  }

  // ----- the exact condition

  /**
   * The pipeline settles if and only if what the first run merges holds no list of tables: then two runs are enough,
   * and one is exactly if there is no server, no root, or [desktop] was there.
   */
  lemma SettlesExactly(lib: Toml, text: string, fragment: Fragment, first: string, second: string)
    requires Lawful(lib) && BareKeys(fragment.settings) && HeadersWhole(Lines(text))
    requires Applied(lib, text, fragment) == Ok(first) && Applied(lib, first, fragment) == Ok(second)
    ensures Applied(lib, second, fragment) == Ok(second) <==> NoLists(lib, text, fragment)
    ensures second == first <==> NoLists(lib, text, fragment) && OneRunIsEnough(text, fragment)
  {
    hide Lawful, HeadersWhole, NoLists, Lines, Applied, GoodKey, OneRunIsEnough;
    if NoLists(lib, text, fragment) {
      SettlesInTwoRuns(lib, text, fragment, first, second);
    } else {
      ListsNeverSettle(lib, text, fragment, first);
      ListsNeverSettle(lib, first, fragment, second);
    }
  }
}
