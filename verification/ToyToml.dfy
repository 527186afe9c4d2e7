/**
 * A small TOML library that is lawful: it knows one list of tables, counts its elements and renders as many. It shows
 * that the laws can be met, and a config on which the pipeline never settles.
 */
module ToyToml {
  import opened Text
  import opened SectionEditor
  import opened SectionReading
  import opened CodexConfig
  import opened CodexFixpoint
  import opened CodexLists

  const OWN := "[mcp_servers.lightwave]"

  const ELEMENT := "[[mcp_servers.lightwave.x]]"

  /** Stands for whatever the library does not know; a text that holds it is not valid. */
  const UNKNOWN := "?"

  function TextLines(text: string): seq<string> {
    Split(TrimNewlines(text))
  }

  predicate Valid(text: string) {
    HeadersWhole(TextLines(text)) && UNKNOWN !in TextLines(text)
  }

  /** A list of n tables, as a value. */
  function Ones(n: nat): (v: string)
    ensures |v| == n
  {
    seq(n, _ => '1')
  }

  predicate IsList(v: string) {
    v != "" && v == Ones(|v|)
  }

  function Read(text: string): Table {
    var n := Count(TextLines(text));
    if n == 0 then map[] else map["x" := Ones(n)]
  }

  predicate Known(table: Table) {
    table == map[] || (table.Keys == {"x"} && IsList(table["x"]))
  }

  function Repeated(line: string, n: nat): seq<string> {
    seq(n, _ => line)
  }

  function Elements(n: nat): seq<string> {
    Repeated(ELEMENT, n)
  }

  predicate AnyList(table: Table) {
    exists k | k in table :: IsList(table[k])
  }

  function Rendered(table: Table): seq<string> {
    [OWN] + if Known(table) then Elements(if table == map[] then 0 else |table["x"]|)
            else if AnyList(table) then [UNKNOWN, ELEMENT] else [UNKNOWN]
  }

  function Marshal(table: Table): string {
    TextOf(Rendered(table))
  }

  const TOY := Toml(Valid, Read, Marshal, IsList)

  // ----- rendering

  /** What is needed of the three lines that are rendered. */
  lemma RenderedLines()
    ensures IsTableLine(OWN) && IsHeader(OWN) && IsOwnedHeader(OWN) && !IsListHeader(OWN)
    ensures IsTableLine(ELEMENT) && IsHeader(ELEMENT) && IsListHeader(ELEMENT)
    ensures !IsTableLine(UNKNOWN) && !IsListHeader(UNKNOWN)
  {
    OwnLine();
    ElementLine();
    UnknownLine();
    hide *;
  }

  lemma Trims(line: string)
    requires line != "" && !IsSpace(line[0]) && !IsSpace(line[|line| - 1])
    ensures Trim(line) == line
  {
    TrimOfTrimmed(line);
  }

  lemma WholeHeader(line: string)
    requires line != "" && line[0] == '[' && line[|line| - 1] == ']' && '\"' !in line && '\'' !in line
    ensures Trim(line) == line && IsTableLine(line) && IsHeader(line) && Unquoted(Trim(line)) == line
  {
    Trims(line);
    UnquotedStays(line);
    hide Trim, Unquoted;
    assert line[..1] == "[" && line[|line| - 1..] == "]";
  }

  lemma OwnLine()
    ensures Trim(OWN) == OWN && IsTableLine(OWN) && IsHeader(OWN) && IsOwnedHeader(OWN) && !IsListHeader(OWN)
  {
    hide Trim, Unquoted, IsTableLine, IsHeader, IsSpace;
    WholeHeader(OWN);
    assert OWN[1] == 'm' && "[[mcp_servers.lightwave."[1] == '[';
  }

  lemma ElementLine()
    ensures Trim(ELEMENT) == ELEMENT && IsTableLine(ELEMENT) && IsHeader(ELEMENT) && IsListHeader(ELEMENT)
  {
    hide Trim, Unquoted, IsTableLine, IsHeader, IsSpace;
    WholeHeader(ELEMENT);
    assert ELEMENT == "[[mcp_servers.lightwave." + "x]]";
  }

  lemma UnknownLine()
    ensures Trim(UNKNOWN) == UNKNOWN && !IsTableLine(UNKNOWN) && !IsListHeader(UNKNOWN)
  {
    Trims(UNKNOWN);
    hide Trim, Unquoted;
  }

  lemma RenderedEnds()
    ensures OneLine(OWN) && OneLine(ELEMENT) && OneLine(UNKNOWN)
    ensures EndsWell(OWN) && EndsWell(ELEMENT) && EndsWell(UNKNOWN)
    ensures !Blank(OWN) && !Blank(ELEMENT) && !Blank(UNKNOWN)
  {
    OwnLine();
    ElementLine();
    UnknownLine();
    hide Trim, IsTableLine, IsHeader, IsOwnedHeader, IsListHeader;
  }

  lemma RenderedIsFrom(table: Table)
    ensures Rendered(table) != [] && Rendered(table)[0] == OWN
    ensures forall l :: l in Rendered(table) ==> l == OWN || l == ELEMENT || l == UNKNOWN
    ensures UNKNOWN in Rendered(table) <==> !Known(table)
    ensures ELEMENT in Rendered(table) <==> AnyList(table)
  {
    if Known(table) && table != map[] {
      assert "x" in table && Elements(|table["x"]|)[0] in Elements(|table["x"]|);
    }
    assert OWN != UNKNOWN && ELEMENT != UNKNOWN && OWN != ELEMENT;
  }

  lemma RenderedIsProper(table: Table)
    ensures Proper(Rendered(table)) && OwnedShape(Rendered(table))
  {
    RenderedIsFrom(table);
    RenderedLines();
    RenderedEnds();
    hide IsTableLine, IsHeader, IsOwnedHeader, IsListHeader, OneLine, EndsWell, Blank, Rendered;
    var r := Rendered(table);
    assert r[|r| - 1] in r;
    forall i | 0 <= i < |r| ensures OneLine(r[i]) && (IsTableLine(r[i]) ==> IsHeader(r[i]) && (IsOwnedHeader(r[i]) || IsListHeader(r[i]))) {
      assert r[i] in r;
    }
  }

  /** Nothing is trimmed off the rendered text. */
  lemma OwnedTextIsAll(table: Table)
    ensures OwnedText(TOY, table) == TextOf(Rendered(table))
  {
    var t := TextOf(Rendered(table));
    RenderedIsFrom(table);
    StartsWithFirst(Rendered(table));
    hide Rendered, TextOf;
    assert OWN[12] == '.' && "[mcp_servers]\n"[12] == ']';
    assert t[12] == OWN[12];
    assert !("[mcp_servers]\n" <= t);
    assert t[0] == '[';
  }

  lemma StartsWithFirst(lines: seq<string>)
    requires lines != []
    ensures lines[0] <= TextOf(lines)
  {
  }

  lemma ListsShow(table: Table)
    ensures AnyList(table) <==> exists i :: 0 <= i < |Rendered(table)| && IsListHeader(Rendered(table)[i])
  {
    RenderedIsFrom(table);
    RenderedLines();
    hide Rendered, IsTableLine, IsHeader, IsOwnedHeader, IsListHeader, AnyList;
    var r := Rendered(table);
    if AnyList(table) {
      var i :| 0 <= i < |r| && r[i] == ELEMENT;
      assert IsListHeader(r[i]);
    }
    forall i | 0 <= i < |r| && IsListHeader(r[i]) ensures AnyList(table) {
      assert r[i] in r;
    }
  }

  lemma RendersLawfully(table: Table)
    ensures RendersOwned(TOY, table) && OwnedLines(TOY, table) == Rendered(table)
  {
    OwnedTextIsAll(table);
    RenderedIsProper(table);
    LinesOfText(Rendered(table));
    ListsShow(table);
    ListsOfToy(table);
    hide Rendered, OwnedText, IsListHeader, Split, TrimNewlines, Proper, OwnedShape, AnyList, HasLists, Join;
  }

  lemma ListsOfToy(table: Table)
    ensures HasLists(TOY, table) <==> AnyList(table)
  {
    hide IsList;
  }

  // ----- reading back

  lemma {:induction false} JoinOfEmpties(lines: seq<string>)
    requires StripEmpty(lines) == []
    ensures TrimNewlines(Join(lines)) == ""
    decreases |lines|
  {
    if lines != [] {
      var front := lines[..|lines| - 1];
      JoinOfEmpties(front);
      assert lines == front + [""];
      if front != [] {
        JoinConcat(front, [""]);
        assert Join(lines) == Join(front) + "\n" + "" == Join(front) + "\n";
        assert (Join(front) + "\n")[..|Join(front)|] == Join(front);
      }
    }
  }

  /** The lines of the kept text: those kept, without the empty ones at the end, but at least one. */
  lemma KeptLines(lines: seq<string>)
    requires AllOneLine(lines)
    ensures var kept := StripEmpty(Kept(lines, false));
      Split(TrimNewlines(Join(Kept(lines, false)))) == if kept == [] then [""] else kept
  {
    hide Kept, StripEmpty, Split, TrimNewlines, Join, OneLine;
    KeptOneLine(lines, false);
    if StripEmpty(Kept(lines, false)) == [] {
      JoinOfEmpties(Kept(lines, false));
      EmptyIsOneLine();
      SplitOfOneLine("");
    } else {
      StripIsTrim(Kept(lines, false));
      SplitOfJoin(StripEmpty(Kept(lines, false)));
    }
  }

  /** The lines of a config with the table rendered behind it. */
  lemma LinesWithServer(config: string, table: Table)
    ensures var kept := Split(TrimNewlines(Join(Kept(TextLines(config), false))));
      TextLines(WithServer(TOY, config, table)) == kept + [""] + Rendered(table)
  {
    OwnedTextIsAll(table);
    RenderedIsProper(table);
    hide Kept, Split, TrimNewlines, Join, Rendered, OwnedText, Proper, OwnedShape;
    LinesOfBoth(TrimNewlines(Join(Kept(TextLines(config), false))), Rendered(table));
  }

  lemma LinesOfBoth(front: string, r: seq<string>)
    requires Proper(r)
    ensures TextLines(front + "\n\n" + TextOf(r)) == Split(front) + [""] + r
  {
    var kept := Split(front);
    assert kept != [] && AllOneLine(kept);
    JoinOfSplit(front);
    hide Split, TrimNewlines, Join, Proper, AllOneLine;
    ProperAfter(kept, r);
    TextOfBoth(kept, r);
    LinesOfText(kept + [""] + r);
  }

  lemma ProperAfter(kept: seq<string>, r: seq<string>)
    requires AllOneLine(kept) && Proper(r)
    ensures Proper(kept + [""] + r)
  {
    hide OneLine, EndsWell;
    EmptyIsOneLine();
    var all := kept + [""] + r;
    assert all[|all| - 1] == r[|r| - 1];
  }

  lemma TextOfBoth(kept: seq<string>, r: seq<string>)
    requires kept != [] && Proper(r)
    ensures TextOf(kept + [""] + r) == Join(kept) + "\n\n" + TextOf(r)
  {
    hide Join, OneLine, EndsWell;
    JoinConcat(kept + [""], r);
    JoinConcat(kept, [""]);
    JoinOfEmptyLine();
    var front, body := Join(kept), Join(r);
    assert front + "\n" + "" + "\n" + body + "\n" == front + "\n\n" + (body + "\n");
  }

  lemma {:induction false} CountRepeated(line: string, n: nat)
    ensures Count(Repeated(line, n)) == if IsListHeader(line) then n else 0
  {
    hide IsListHeader, Count;
    if n == 0 {
      CountNil();
      assert Repeated(line, 0) == [];
    } else {
      CountRepeated(line, n - 1);
      CountConcat([line], Repeated(line, n - 1));
      CountOne(line);
      assert Repeated(line, n) == [line] + Repeated(line, n - 1);
    }
  }

  lemma CountRendered(table: Table)
    requires Known(table)
    ensures Count(Rendered(table)) == if table == map[] then 0 else |table["x"]|
  {
    var n := if table == map[] then 0 else |table["x"]|;
    RenderedLines();
    CountRepeated(ELEMENT, n);
    CountOne(OWN);
    hide Count, IsListHeader;
    CountConcat([OWN], Elements(n));
  }

  /** List headers in the config with the table: those of the config and those rendered. */
  lemma CountWithServer(config: string, table: Table)
    ensures Count(TextLines(WithServer(TOY, config, table))) == Count(TextLines(config)) + Count(Rendered(table))
  {
    var lines := TextLines(config);
    assert AllOneLine(lines);
    LinesWithServer(config, table);
    KeptLines(lines);
    hide Count, Kept, StripEmpty, Split, TrimNewlines, Join, Rendered, TextLines, WithServer, OneLine;
    CountKept(lines, false);
    CountStrip(Kept(lines, false));
    EmptyIsNoList();
    CountNil();
    var kept := Split(TrimNewlines(Join(Kept(lines, false))));
    CountConcat(kept + [""], Rendered(table));
    CountConcat(kept, [""]);
  }

  lemma EchoesLawfully(config: string, table: Table)
    requires Valid(config) && Valid(WithServer(TOY, config, table))
    ensures Echoes(TOY, Read(config), table, Read(WithServer(TOY, config, table)))
  {
    LinesWithServer(config, table);
    RenderedIsFrom(table);
    CountWithServer(config, table);
    hide Count, Rendered, TextLines, WithServer, HeadersWhole, Kept, Split, TrimNewlines, Join;
    assert Known(table);
    CountRendered(table);
    var c, m := Count(TextLines(config)), Count(Rendered(table));
    var read := Read(WithServer(TOY, config, table));
    OnesAreList(c + m);
    forall k ensures EchoesField(TOY, Read(config), table, read, k) {}
  }

  lemma OnesAreList(n: nat)
    ensures n > 0 ==> IsList(Ones(n))
  {
  }

  // ----- editing

  lemma LinesOfEdited(text: string, section: string, settings: map<string, string>)
    requires BareKeys(settings) && EditedSection(section)
    ensures TextLines(Edited(text, section, settings)) == EditLines(Lines(text), section, settings)
  {
    hide EditLines, Lines, Split, TrimNewlines, Join, Edited, GoodKey, EndWell, AllOneLine, EditedSection;
    EditedSectionsAreForeign(section);
    LinesEndWell(text);
    EditedProper(Lines(text), section, settings);
    TextOfEdited(text, section, settings);
    LinesOfText(EditLines(Lines(text), section, settings));
  }

  lemma LinesAreTextLines(text: string)
    ensures Count(Lines(text)) == Count(TextLines(text))
    ensures Valid(text) ==> HeadersWhole(Lines(text)) && UNKNOWN !in Lines(text)
  {
    if text == "" {
      assert TrimNewlines("") == "" && Split("") == [""];
      EmptyIsNoList();
      CountNil();
    }
  }

  /** The harness's edits keep the list and what is valid. */
  lemma EditKeepsList(text: string, section: string, settings: map<string, string>)
    requires Valid(text) && BareKeys(settings) && EditedSection(section)
    ensures Valid(Edited(text, section, settings)) && Read(Edited(text, section, settings)) == Read(text)
    ensures Count(TextLines(Edited(text, section, settings))) == Count(TextLines(text))
  {
    hide EditLines, Lines, Split, TrimNewlines, Edited, GoodKey, EditedSection, Count, HeadersWhole, TextLines;
    LinesOfEdited(text, section, settings);
    LinesAreTextLines(text);
    CountEdit(Lines(text), section, settings);
    EditedKeepsHeaders(Lines(text), section, settings);
    EditedComesFrom(Lines(text), section, settings);
    if UNKNOWN in EditLines(Lines(text), section, settings) {
      UnknownIsNotWritten(Lines(text), section, settings);
      assert false;
    }
  }

  lemma UnknownIsNotWritten(lines: seq<string>, section: string, settings: map<string, string>)
    requires UNKNOWN !in lines
    ensures !ComesFrom(UNKNOWN, lines, section, settings)
  {
    assert Header(section)[0] == '[' && UNKNOWN[0] == '?';
    forall k | k in settings ensures Assignment(k, settings[k]) != UNKNOWN {
      var a := Assignment(k, settings[k]);
      assert |a| > 1;
    }
  }

  // ----- the library

  lemma ToyIsLawful()
    ensures Lawful(TOY)
  {
    forall table ensures RendersOwned(TOY, table) { RendersLawfully(table); }
    forall config, table ensures ReadsBack(TOY, config, table) { ToyReadsBack(config, table); }
    forall config, path ensures KeepsServer(TOY, config, path) { ToyKeepsServer(config, path); }
    hide RendersOwned, ReadsBack, KeepsServer;
  }

  lemma ToyReadsBack(config: string, table: Table)
    ensures ReadsBack(TOY, config, table)
  {
    hide WithServer, Echoes, Valid, Read;
    if Valid(config) && Valid(WithServer(TOY, config, table)) {
      EchoesLawfully(config, table);
    }
  }

  lemma ToyKeepsServer(config: string, path: string)
    ensures KeepsServer(TOY, config, path)
  {
    hide Edited, Valid, Read, RootSettings;
    RootKeyIsBare(path);
    if Valid(config) {
      EditKeepsList(config, DESKTOP_SECTION, RootSettings(path));
    }
  }

  /** A config with a list of tables in the server's table and a fragment that says nothing of it. */
  const LISTED := ELEMENT + "\n"

  function Plain(settings: map<string, string>): Fragment {
    Fragment(settings, Some(map[]), NoRoot)
  }

  lemma MergeNothing(text: string)
    ensures Merge(Read(text), map[]) == Read(text)
  {
    var merged := Merge(Read(text), map[]);
    hide Merge, Count, TextLines;
    forall k ensures (k in merged <==> k in Read(text)) && (k in merged ==> merged[k] == Read(text)[k]) {
      MergeFields(Read(text), map[], k);
      assert "x" !in TRANSPORT && !IsPolicy("x");
    }
  }

  /** What a run does when the fragment says nothing of the server. */
  lemma PlainRun(text: string, settings: map<string, string>)
    requires Valid(text) && BareKeys(settings)
    ensures Applied(TOY, text, Plain(settings)).Ok?
    ensures NoLists(TOY, text, Plain(settings)) <==> Count(TextLines(text)) == 0
  {
    EditKeepsList(text, SHELL_SECTION, settings);
    ListsOfRead(text);
    PlainMcp(Edited(text, SHELL_SECTION, settings));
    hide Valid, Read, Merge, McpResult, Count, TextLines, BareKeys, HasLists, Edited;
    PlainApplied(TOY, text, settings);
  }

  /** Without a root a run is its MCP step. */
  lemma PlainApplied(lib: Toml, text: string, settings: map<string, string>)
    requires var r := McpResult(lib, Edited(text, SHELL_SECTION, settings), Some(map[])); r.Ok? && lib.valid(r.value)
    ensures Applied(lib, text, Plain(settings)).Ok?
    ensures NoLists(lib, text, Plain(settings)) <==> !HasLists(lib, Merge(lib.server(Edited(text, SHELL_SECTION, settings)), map[]))
  {
    hide Edited, McpResult, HasLists, Merge;
  }

  lemma PlainMcp(shell: string)
    requires Valid(shell)
    ensures Merge(Read(shell), map[]) == Read(shell)
    ensures var r := McpResult(TOY, shell, Some(map[])); r.Ok? && Valid(r.value)
  {
    MergeNothing(shell);
    ReadIsKnown(shell);
    ServerIsValid(shell, Read(shell));
    hide Valid, Read, Merge, WithServer, Known;
  }

  lemma ReadIsKnown(text: string)
    ensures Known(Read(text))
  {
    hide Count, TextLines;
    OnesAreList(Count(TextLines(text)));
  }

  /** The pipeline runs on every valid config, and settles at once exactly if the config holds no list header. */
  lemma ToySettlesExactly(text: string, settings: map<string, string>)
    requires Valid(text) && BareKeys(settings)
    ensures Lawful(TOY) && Applied(TOY, text, Plain(settings)).Ok?
    ensures var first := Applied(TOY, text, Plain(settings)).value;
      Applied(TOY, first, Plain(settings)) == Ok(first) <==> Count(TextLines(text)) == 0
  {
    ToyIsLawful();
    PlainRun(text, settings);
    LinesAreTextLines(text);
    assert OneRunIsEnough(text, Plain(settings));
    hide Lawful, Valid, Count, TextLines, Lines, HeadersWhole, GoodKey, NoLists, Applied, OneRunIsEnough;
    var first := Applied(TOY, text, Plain(settings)).value;
    if Count(TextLines(text)) == 0 {
      SettlesInOneRun(TOY, text, Plain(settings), first);
    } else {
      ListsNeverSettle(TOY, text, Plain(settings), first);
    }
  }

  lemma ListsOfRead(text: string)
    ensures HasLists(TOY, Read(text)) <==> Count(TextLines(text)) > 0
  {
    hide Count, TextLines;
    OnesAreList(Count(TextLines(text)));
    if Count(TextLines(text)) > 0 {
      assert "x" in Read(text) && IsList(Read(text)["x"]);
    }
  }

  lemma ServerIsValid(config: string, table: Table)
    requires Valid(config) && Known(table)
    ensures Valid(WithServer(TOY, config, table))
  {
    var lines := TextLines(config);
    assert AllOneLine(lines);
    LinesWithServer(config, table);
    KeptLines(lines);
    RenderedIsFrom(table);
    RenderedIsProper(table);
    hide Kept, StripEmpty, Split, TrimNewlines, Join, Rendered, TextLines, WithServer, OneLine, IsTableLine, IsHeader, IsOwnedHeader, IsListHeader, Known, EndsWell, Blank;
    var kept := Split(TrimNewlines(Join(Kept(lines, false))));
    KeptIsClean(lines, false);
    StrippedIsClean(Kept(lines, false));
    KeptAreLines(lines);
    EmptyIsNoTable();
    assert HeadersWhole(kept) && UNKNOWN !in kept;
    WholeConcat(kept, [""]);
    WholeConcat(kept + [""], Rendered(table));
  }

  lemma KeptAreLines(lines: seq<string>)
    ensures forall l :: l in StripEmpty(Kept(lines, false)) ==> l in lines
  {
    StripKeepsHas(Kept(lines, false), "");
    KeptFrom(lines, false);
    hide StripEmpty, Kept, Has;
  }

  lemma {:induction false} KeptFrom(lines: seq<string>, drop: bool)
    ensures forall l :: l in Kept(lines, drop) ==> l in lines
  {
    hide DropAfter;
    if lines != [] {
      KeptFrom(lines[1..], DropAfter(lines[0], drop));
    }
  }

  /** The config that holds one list header: the pipeline runs on it, and no number of runs settles it. */
  lemma ListedNeverSettles(settings: map<string, string>, texts: seq<string>)
    requires BareKeys(settings) && |texts| >= 2 && texts[0] == LISTED
    requires forall i :: 0 <= i < |texts| - 1 ==> Applied(TOY, texts[i], Plain(settings)) == Ok(texts[i + 1])
    ensures Lawful(TOY) && Applied(TOY, LISTED, Plain(settings)).Ok? && Applied(TOY, texts[|texts| - 2], Plain(settings)) != Ok(texts[|texts| - 2])
    ensures Count(Lines(texts[|texts| - 1])) >= |texts|
  {
    ListedIsValid();
    ToyIsLawful();
    PlainRun(LISTED, settings);
    LinesAreTextLines(LISTED);
    hide Lawful, Valid, Count, TextLines, Lines, HeadersWhole, GoodKey, NoLists, Applied;
    ListsGrow(TOY, Plain(settings), texts, |texts| - 1);
    ListsGrow(TOY, Plain(settings), texts, |texts| - 2);
    ListsNeverSettle(TOY, texts[|texts| - 2], Plain(settings), texts[|texts| - 1]);
  }

  lemma ListedIsValid()
    ensures Valid(LISTED) && Count(TextLines(LISTED)) == 1
  {
    RenderedLines();
    RenderedEnds();
    CountOne(ELEMENT);
    hide IsTableLine, IsHeader, IsListHeader, IsOwnedHeader, Count, OneLine, EndsWell, Blank, Split, TrimNewlines;
    assert Join([ELEMENT]) == ELEMENT;
    LinesOfText([ELEMENT]);
    assert TextLines(LISTED) == [ELEMENT];
    assert ELEMENT[0] != UNKNOWN[0];
  }
}
