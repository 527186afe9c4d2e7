/**
 * Applying the Codex harness fragment twice: which text the pipeline settles on and after how many
 * runs. The first run may append [desktop] after the owned server table; the second then moves
 * that table last; nothing changes after that.
 */
module CodexFixpoint {
  import opened Text
  import opened SectionEditor
  import opened SectionReading
  import opened CodexConfig

  // ----- merging fields

  /** The fields that say how the server is reached. */
  predicate Transports(key: string) {
    key in {"command", "args", "env", "cwd", "env_vars", "url", "http_headers", "env_http_headers", "bearer_token_env_var"}
  }

  /** The fields an operator decides. */
  predicate Permits(key: string) {
    key in {"tools", "enabled_tools", "disabled_tools"}
  }

  lemma FieldKinds(key: string)
    ensures Transports(key) <==> key in TRANSPORT
    ensures Permits(key) <==> IsPolicy(key)
    ensures !(Transports(key) && Permits(key))
  {
    assert forall i :: 0 <= i < |TRANSPORT| ==> Transports(TRANSPORT[i]);
    if Transports(key) {
      assert key == TRANSPORT[0] || key == TRANSPORT[1] || key == TRANSPORT[2] || key == TRANSPORT[3] || key == TRANSPORT[4]
          || key == TRANSPORT[5] || key == TRANSPORT[6] || key == TRANSPORT[7] || key == TRANSPORT[8];
    }
  }

  /** The merge: transport comes from the fragment alone, operator policy wins, the rest is kept. */
  lemma MergeFields(existing: Table, desired: Table, key: string)
    ensures var merged := Merge(existing, desired);
      && (Permits(key) && key in existing ==> key in merged && merged[key] == existing[key])
      && (Transports(key) ==> (key in merged <==> key in desired) && (key in desired ==> merged[key] == desired[key]))
      && (key in desired && !(Permits(key) && key in existing) ==> key in merged && merged[key] == desired[key])
      && (!Transports(key) && key !in desired ==> (key in merged <==> key in existing) && (key in existing ==> merged[key] == existing[key]))
  {
    FieldKinds(key);
    hide Transports, Permits, IsPolicy;
  }

  lemma MergeTwice(existing: Table, desired: Table)
    ensures Merge(Merge(existing, desired), desired) == Merge(existing, desired)
  {
    var once := Merge(existing, desired);
    var twice := Merge(once, desired);
    forall k ensures (k in twice <==> k in once) && (k in once ==> twice[k] == once[k]) {
      MergeFields(existing, desired, k);
      MergeFields(once, desired, k);
    }
  }

  // ----- what is assumed of the library and of the text

  function OwnedLines(lib: Toml, table: Table): seq<string> {
    Split(TrimNewlines(OwnedText(lib, table)))
  }

  /** The header of an element of a list of tables in the server's table, which the filter does not take for its own. */
  predicate IsListHeader(line: string) {
    IsTableLine(line) && "[[mcp_servers.lightwave." <= Unquoted(Trim(line))
  }

  /** Lines that open with one of the server's own headers and hold nothing but its tables and lists of tables. */
  predicate OwnedShape(lines: seq<string>) {
    && lines != [] && AllOneLine(lines) && EndsWell(lines[|lines| - 1]) && !Blank(lines[|lines| - 1])
    && IsTableLine(lines[0])
    && forall i :: 0 <= i < |lines| && IsTableLine(lines[i]) ==> IsHeader(lines[i]) && (IsOwnedHeader(lines[i]) || IsListHeader(lines[i]))
  }

  /** Such lines without lists of tables. */
  predicate OwnedBlock(lines: seq<string>) {
    OwnedShape(lines) && forall i :: 0 <= i < |lines| && IsTableLine(lines[i]) ==> IsOwnedHeader(lines[i])
  }

  predicate HasLists(lib: Toml, table: Table) {
    exists k :: k in table && lib.lists(table[k])
  }

  /** Rendering gives the server's tables, with a list header exactly if a field holds a list of tables. */
  ghost predicate RendersOwned(lib: Toml, table: Table) {
    && OwnedShape(OwnedLines(lib, table))
    && OwnedText(lib, table) == Join(OwnedLines(lib, table)) + "\n"
    && (HasLists(lib, table) <==> exists i :: 0 <= i < |OwnedLines(lib, table)| && IsListHeader(OwnedLines(lib, table)[i]))
  }

  /**
   * What is read back when a table was rendered into a config that held `existing`: its fields, those that hold a list
   * with more in it perhaps, and, beside them, only fields that were in the config already. A config in which
   * mcp_servers is no table never yields any.
   */
  ghost predicate Echoes(lib: Toml, existing: Table, table: Table, read: Table) {
    (existing == map[] && read == map[]) || forall k :: EchoesField(lib, existing, table, read, k)
  }

  predicate EchoesField(lib: Toml, existing: Table, table: Table, read: Table, k: string) {
    && (k in table ==> k in read && (lib.lists(table[k]) ==> lib.lists(read[k])))
    && (k in table && !lib.lists(table[k]) && (k in existing ==> existing[k] == table[k]) ==> read[k] == table[k])
    && (k !in table && k !in existing ==> k !in read)
  }

  /** On a config that is valid before and after, a rendered table is read back. */
  ghost predicate ReadsBack(lib: Toml, config: string, table: Table) {
    lib.valid(config) && lib.valid(WithServer(lib, config, table)) ==>
      Echoes(lib, lib.server(config), table, lib.server(WithServer(lib, config, table)))
  }

  /** On a config that is valid before and after, editing the desktop section says nothing about the server. */
  ghost predicate KeepsServer(lib: Toml, config: string, path: string) {
    lib.valid(config) && lib.valid(Edited(config, DESKTOP_SECTION, RootSettings(path))) ==>
      lib.server(Edited(config, DESKTOP_SECTION, RootSettings(path))) == lib.server(config)
  }

  /** What is assumed of the TOML library. */
  ghost predicate Lawful(lib: Toml) {
    && (forall table :: RendersOwned(lib, table))
    && (forall config, table :: ReadsBack(lib, config, table))
    && (forall config, path :: KeepsServer(lib, config, path))
  }

  /** Merging the same desired table into what is read back gives the same table again, if it holds no list of tables. */
  lemma EchoMerges(lib: Toml, existing: Table, desired: Table, read: Table)
    requires Echoes(lib, existing, Merge(existing, desired), read) && !HasLists(lib, Merge(existing, desired))
    ensures Merge(read, desired) == Merge(existing, desired)
  {
    var once, twice := Merge(existing, desired), Merge(read, desired);
    hide Merge;
    if existing != map[] || read != map[] {
      forall k ensures (k in twice <==> k in once) && (k in once ==> twice[k] == once[k]) {
        assert EchoesField(lib, existing, once, read, k);
        MergeFields(existing, desired, k);
        MergeFields(read, desired, k);
      }
    }
  }

  /** Otherwise it gives a table that holds a list of tables again. */
  lemma EchoKeepsLists(lib: Toml, existing: Table, desired: Table, read: Table)
    requires Echoes(lib, existing, Merge(existing, desired), read) && HasLists(lib, Merge(existing, desired))
    ensures HasLists(lib, Merge(read, desired))
  {
    var once, twice := Merge(existing, desired), Merge(read, desired);
    hide Merge;
    var k :| k in once && lib.lists(once[k]);
    if existing != map[] || read != map[] {
      assert EchoesField(lib, existing, once, read, k);
      MergeFields(existing, desired, k);
      MergeFields(read, desired, k);
    }
  }

  /** Every line that opens with '[' is a whole header. */
  predicate HeadersWhole(lines: seq<string>) {
    forall i :: 0 <= i < |lines| && IsTableLine(lines[i]) ==> IsHeader(lines[i])
  }

  /** Keys whose assignments neither filter takes for a header. */
  predicate BareKeys(settings: map<string, string>) {
    GoodKeys(settings) && forall k :: k in settings ==> !("[" <= k)
  }

  lemma HeaderIsTableLine(line: string)
    requires IsHeader(line)
    ensures IsTableLine(line)
  {
  }

  // ----- texts and their lines

  predicate Proper(lines: seq<string>) {
    lines != [] && AllOneLine(lines) && EndsWell(lines[|lines| - 1])
  }

  function TextOf(lines: seq<string>): string {
    Join(lines) + "\n"
  }

  lemma LinesOfText(lines: seq<string>)
    requires Proper(lines)
    ensures Lines(TextOf(lines)) == lines && Split(TrimNewlines(TextOf(lines))) == lines
  {
    hide Join, Split, TrimNewlines;
    JoinEndsWell(lines);
    TrimFinalBreak(Join(lines));
    SplitOfJoin(lines);
  }

  lemma EditedProper(lines: seq<string>, section: string, settings: map<string, string>)
    requires GoodKeys(settings) && OneLine(section) && AllOneLine(lines) && EndWell(lines)
    ensures Proper(EditLines(lines, section, settings))
  {
    hide EditLines, GoodKey;
    EditedEndsWell(lines, section, settings);
    EditedIsOneLine(lines, section, settings);
  }

  lemma {:induction false} JoinConcat(a: seq<string>, b: seq<string>)
    requires a != [] && b != []
    ensures Join(a + b) == Join(a) + "\n" + Join(b)
  {
    if |a| == 1 {
      assert (a + b)[1..] == b;
    } else {
      JoinConcat(a[1..], b);
      assert (a + b)[1..] == a[1..] + b;
      assert Join(a + b) == a[0] + "\n" + Join(a[1..] + b);
      assert a[0] + "\n" + (Join(a[1..]) + "\n" + Join(b)) == (a[0] + "\n" + Join(a[1..])) + "\n" + Join(b);
    }
  }

  /** The lines without the empty ones at the end. */
  function StripEmpty(lines: seq<string>): seq<string> {
    if lines != [] && lines[|lines| - 1] == "" then StripEmpty(lines[..|lines| - 1]) else lines
  }

  lemma {:induction false} StripIsTrim(lines: seq<string>)
    requires AllOneLine(lines) && StripEmpty(lines) != []
    ensures TrimNewlines(Join(lines)) == Join(StripEmpty(lines))
    ensures Proper(StripEmpty(lines))
    decreases |lines|
  {
    var last := lines[|lines| - 1];
    if last == "" {
      var front := lines[..|lines| - 1];
      StripIsTrim(front);
      assert lines == front + [last];
      JoinConcat(front, [last]);
      assert (Join(front) + "\n")[..|Join(front)|] == Join(front);
      assert Join(lines) == Join(front) + "\n";
    } else {
      assert EndsWell(last);
      JoinEndsWell(lines);
      assert TrimNewlines(Join(lines)) == Join(lines);
    }
  }

  /** What the filter and the rendered table make of the lines. */
  function McpLines(lib: Toml, lines: seq<string>, table: Table): seq<string> {
    StripEmpty(Kept(lines, false)) + [""] + OwnedLines(lib, table)
  }

  lemma {:induction false} KeptOneLine(lines: seq<string>, drop: bool)
    requires AllOneLine(lines)
    ensures AllOneLine(Kept(lines, drop))
  {
    hide OneLine, DropAfter;
    if lines != [] {
      KeptOneLine(lines[1..], DropAfter(lines[0], drop));
    }
  }

  lemma McpTextIsLines(lib: Toml, lines: seq<string>, table: Table)
    requires Lawful(lib) && Proper(lines) && StripEmpty(Kept(lines, false)) != []
    ensures WithServer(lib, TextOf(lines), table) == TextOf(McpLines(lib, lines, table))
    ensures Proper(McpLines(lib, lines, table))
  {
    hide Split, TrimNewlines, Join, Kept, OwnedText, StripEmpty, EndsWell, OneLine, OwnedLines, Lawful;
    LinesOfText(lines);
    KeptOneLine(lines, false);
    StripIsTrim(Kept(lines, false));
    LawAt(lib, table);
    var kept := StripEmpty(Kept(lines, false));
    var owned := OwnedLines(lib, table);
    JoinConcat(kept + [""], owned);
    JoinConcat(kept, [""]);
    JoinOfEmptyLine();
    assert McpLines(lib, lines, table) == kept + [""] + owned;
    calc {
      WithServer(lib, TextOf(lines), table);
      Join(kept) + "\n\n" + (Join(owned) + "\n");
      { assert "\n\n" == "\n" + "" + "\n"; }
      (Join(kept) + "\n" + "") + "\n" + Join(owned) + "\n";
    }
    EmptyIsOneLine();
  }

  lemma JoinOfEmptyLine()
    ensures Join([""]) == ""
  {
  }

  lemma EmptyIsOneLine()
    ensures OneLine("")
  {
  }

  // ----- a section that needs no edit

  /** The section is there and its body is fixed. */
  predicate Settled(lines: seq<string>, section: string, settings: map<string, string>) {
    var start := HeaderAt(lines, Header(section));
    start < |lines| && Fixed(SectionBody(lines, start), settings)
  }

  /** `lines` are these parts, cut at the first header line of the section. */
  predicate Parts(lines: seq<string>, section: string, before: seq<string>, line: string, body: seq<string>, rest: seq<string>) {
    && lines == before + [line] + body + rest
    && (forall i :: 0 <= i < |before| ==> Trim(before[i]) != Header(section))
    && Trim(line) == Header(section)
    && NoHeaders(body) && (rest == [] || IsHeader(rest[0]))
  }

  lemma CutAtSection(lines: seq<string>, section: string)
    returns (before: seq<string>, line: string, body: seq<string>, rest: seq<string>)
    requires HeaderAt(lines, Header(section)) < |lines|
    ensures Parts(lines, section, before, line, body, rest)
    ensures body == SectionBody(lines, HeaderAt(lines, Header(section)))
  {
    hide Trim, IsHeader, SectionBody, SectionRest;
    var start := HeaderAt(lines, Header(section));
    SectionParts(lines, start);
    before, line, body, rest := lines[..start], lines[start], SectionBody(lines, start), SectionRest(lines, start);
    assert lines[..start + 1] == before + [line];
  }

  lemma PartsAreTheCut(lines: seq<string>, section: string, before: seq<string>, line: string, body: seq<string>, rest: seq<string>)
    requires Parts(lines, section, before, line, body, rest)
    ensures HeaderAt(lines, Header(section)) == |before| && SectionBody(lines, |before|) == body
  {
    hide Trim, IsHeader, HeaderAt, BodyLength;
    assert lines == before + [line] + (body + rest);
    HeaderAtConcat(before, line, body + rest, Header(section));
    BodyLengthConcat(body, rest);
    assert lines[|before| + 1..] == body + rest;
  }

  lemma SettledStays(lines: seq<string>, section: string, settings: map<string, string>)
    requires Settled(lines, section, settings)
    ensures EditLines(lines, section, settings) == lines
  {
    hide Fixed, EditBody, Parts, SectionBody, EditLines, HeaderAt;
    var before, line, body, rest := CutAtSection(lines, section);
    FixedBodyStays(body, settings);
    EditOfParts(lines, section, settings, before, line, body, rest);
    PartsHold(lines, section, before, line, body, rest);
  }

  lemma EditOfParts(lines: seq<string>, section: string, settings: map<string, string>,
                    before: seq<string>, line: string, body: seq<string>, rest: seq<string>)
    requires Parts(lines, section, before, line, body, rest)
    ensures EditLines(lines, section, settings) == before + [line] + EditBody(body, settings) + rest
  {
    hide Trim, IsHeader, EditBody, EditLines;
    EditInPlace(before, line, body, rest, section, settings);
  }

  lemma EditSettles(lines: seq<string>, section: string, settings: map<string, string>)
    requires GoodKeys(settings)
    ensures Settled(EditLines(lines, section, settings), section, settings)
  {
    hide Trim, IsHeader, EditLines, Fixed, HeaderAt, SectionBody, GoodKey;
    var before, line, body, rest := EditedParts(lines, section, settings);
    PartsAreTheCut(EditLines(lines, section, settings), section, before, line, body, rest);
  }

  /** Empty lines. */
  predicate AllEmpty(lines: seq<string>) {
    forall i :: 0 <= i < |lines| ==> lines[i] == ""
  }

  lemma FixedWithEmpty(body: seq<string>, gap: seq<string>, settings: map<string, string>)
    requires AllEmpty(gap)
    ensures Fixed(body + gap, settings) <==> Fixed(body, settings)
  {
    BlankLineReads();
    hide TomlKey, Assignment, Seen;
    forall i | 0 <= i < |gap| ensures RewriteLine(gap[i], settings) == gap[i] {}
    forall i | 0 <= i < |body| ensures (body + gap)[i] == body[i] {}
    forall i | 0 <= i < |gap| ensures (body + gap)[|body| + i] == gap[i] {}
    forall k ensures Seen(body + gap, k) <==> Seen(body, k) {
      SeenConcat(body, gap, k);
      EmptySeesNothing(gap, k);
    }
  }

  lemma EmptySeesNothing(gap: seq<string>, key: string)
    requires AllEmpty(gap)
    ensures !Seen(gap, key)
  {
    BlankLineReads();
    hide TomlKey;
  }

  lemma EmptyNoHeaders(gap: seq<string>)
    requires AllEmpty(gap)
    ensures NoHeaders(gap)
  {
    BlankLineReads();
    hide IsHeader;
  }

  /** Appending empty lines and then tables leaves a settled section settled. */
  lemma SettledAppend(lines: seq<string>, gap: seq<string>, tables: seq<string>, section: string, settings: map<string, string>)
    requires Settled(lines, section, settings) && AllEmpty(gap) && (tables == [] || IsHeader(tables[0]))
    ensures Settled(lines + gap + tables, section, settings)
  {
    hide Trim, IsHeader, Fixed, HeaderAt, SectionBody;
    var before, line, body, rest := CutAtSection(lines, section);
    EmptyNoHeaders(gap);
    if rest == [] {
      FixedWithEmpty(body, gap, settings);
      assert lines + gap + tables == before + [line] + (body + gap) + tables;
      PartsAreTheCut(lines + gap + tables, section, before, line, body + gap, tables);
    } else {
      assert lines + gap + tables == before + [line] + body + (rest + gap + tables);
      PartsAreTheCut(lines + gap + tables, section, before, line, body, rest + gap + tables);
    }
  }

  /** So does removing empty lines at the end. */
  lemma {:induction false} SettledStrip(lines: seq<string>, section: string, settings: map<string, string>)
    requires Settled(lines, section, settings)
    ensures Settled(StripEmpty(lines), section, settings) && StripEmpty(lines) != []
    decreases |lines|
  {
    hide Trim, IsHeader, Fixed, HeaderAt, SectionBody;
    if lines[|lines| - 1] == "" {
      var front := lines[..|lines| - 1];
      var before, line, body, rest := CutAtSection(lines, section);
      BlankLineReads();
      HeaderIsHeader(section);
      if rest != [] {
        var rest' := rest[..|rest| - 1];
        assert rest' != [] ==> rest'[0] == rest[0];
        assert rest' == [] ==> rest == [""];
        assert front == before + [line] + body + rest';
        PartsAreTheCut(front, section, before, line, body, rest');
      } else if body != [] {
        var body' := body[..|body| - 1];
        assert body == body' + [""];
        FixedWithEmpty(body', [""], settings);
        assert front == before + [line] + body' + [];
        PartsAreTheCut(front, section, before, line, body', []);
      } else {
        EmptyIsBlank(line);
        assert false;
      }
      SettledStrip(front, section, settings);
    }
  }

  lemma EmptyIsBlank(line: string)
    ensures line == "" ==> Blank(line)
  {
  }

  // ----- editing another section

  lemma {:induction false} BodyLengthUpTo(a: seq<string>, line: string, b: seq<string>, c: seq<string>)
    requires IsHeader(line)
    ensures BodyLength(a + [line] + b) == BodyLength(a + [line] + c) <= |a|
  {
    hide IsHeader;
    if a != [] {
      BodyLengthUpTo(a[1..], line, b, c);
      assert (a + [line] + b)[1..] == a[1..] + [line] + b;
      assert (a + [line] + c)[1..] == a[1..] + [line] + c;
    }
  }

  /** A section's first body does not depend on the body of another section. */
  lemma {:induction false} SettledElsewhere(before: seq<string>, line: string, body: seq<string>, body': seq<string>, rest: seq<string>,
                                            section: string, settings: map<string, string>)
    requires IsHeader(line) && Trim(line) != Header(section)
    requires NoHeaders(body) && NoHeaders(body')
    requires Settled(before + [line] + body + rest, section, settings)
    ensures Settled(before + [line] + body' + rest, section, settings)
  {
    hide Trim, IsHeader, Settled, Header, NoHeaders;
    if before == [] {
      assert before + [line] + body + rest == [line] + body + rest;
      assert before + [line] + body' + rest == [line] + body' + rest;
      SettledPast(line, body, rest, section, settings);
      SettledPast(line, body', rest, section, settings);
    } else {
      var tail, tail' := before[1..] + [line] + body + rest, before[1..] + [line] + body' + rest;
      assert before + [line] + body + rest == [before[0]] + tail;
      assert before + [line] + body' + rest == [before[0]] + tail';
      if Trim(before[0]) == Header(section) {
        assert tail == before[1..] + [line] + (body + rest) && tail' == before[1..] + [line] + (body' + rest);
        SettledAtOnce(before[0], before[1..], line, body + rest, body' + rest, section, settings);
      } else {
        ConsSettled(before[0], tail, section, settings);
        SettledElsewhere(before[1..], line, body, body', rest, section, settings);
        ConsSettled(before[0], tail', section, settings);
      }
    }
  }

  /** A section that starts the lines ends at the next header, whatever comes after that. */
  lemma SettledAtOnce(first: string, between: seq<string>, line: string, b: seq<string>, c: seq<string>, section: string, settings: map<string, string>)
    requires Trim(first) == Header(section) && IsHeader(line)
    requires Settled([first] + (between + [line] + b), section, settings)
    ensures Settled([first] + (between + [line] + c), section, settings)
  {
    hide Trim, IsHeader, Fixed, BodyLength, Header;
    BodyLengthUpTo(between, line, b, c);
    var tail, tail' := between + [line] + b, between + [line] + c;
    var n := BodyLength(tail);
    assert tail[..n] == between[..n] == tail'[..n];
    assert ([first] + tail)[1..] == tail && ([first] + tail')[1..] == tail';
  }

  /** Another section in front makes no difference. */
  lemma SettledPast(line: string, body: seq<string>, rest: seq<string>, section: string, settings: map<string, string>)
    requires Trim(line) != Header(section) && NoHeaders(body)
    ensures Settled([line] + body + rest, section, settings) <==> Settled(rest, section, settings)
  {
    hide Trim, IsHeader, Fixed, BodyLength, Header, NoHeaders;
    SkipTo(line, body, rest, section);
    var start := HeaderAt(rest, Header(section));
    if start < |rest| {
      assert ([line] + body + rest)[1 + |body| + start + 1..] == rest[start + 1..];
    }
  }

  lemma ConsSettled(line: string, tail: seq<string>, section: string, settings: map<string, string>)
    requires Trim(line) != Header(section)
    ensures Settled([line] + tail, section, settings) <==> Settled(tail, section, settings)
  {
    hide Trim, Fixed, BodyLength, Header;
    var lines := [line] + tail;
    assert lines[1..] == tail;
    var start := HeaderAt(tail, Header(section));
    if start < |tail| {
      assert lines[start + 2..] == tail[start + 1..];
    }
  }

  lemma {:induction false} SkipTo(line: string, body: seq<string>, rest: seq<string>, section: string)
    requires Trim(line) != Header(section) && NoHeaders(body)
    ensures HeaderAt([line] + body + rest, Header(section)) == 1 + |body| + HeaderAt(rest, Header(section))
    decreases |body|
  {
    HeaderIsHeader(section);
    hide Trim, Header;
    var lines := [line] + body + rest;
    assert lines[1..] == body + rest;
    if body == [] {
      assert body + rest == rest;
    } else {
      HeadersDiffer(body[0], section);
      SkipTo(body[0], body[1..], rest, section);
      assert [body[0]] + body[1..] + rest == body + rest;
    }
  }

  lemma HeadersDiffer(line: string, section: string)
    requires !IsHeader(line)
    ensures Trim(line) != Header(section)
  {
    HeaderIsHeader(section);
  }

  /** Editing one section leaves another settled section settled. */
  lemma EditOther(lines: seq<string>, edited: string, editedSettings: map<string, string>, section: string, settings: map<string, string>)
    requires GoodKeys(editedSettings) && Header(edited) != Header(section)
    requires Settled(lines, section, settings)
    ensures Settled(EditLines(lines, edited, editedSettings), section, settings)
  {
    hide Trim, IsHeader, Fixed, BodyLength, Header, Settled, EditBody, Assignments, EditLines, Parts;
    HeaderIsHeader(edited);
    BlankLineReads();
    if HeaderAt(lines, Header(edited)) < |lines| {
      var before, line, body, rest := CutAtSection(lines, edited);
      EditOfParts(lines, edited, editedSettings, before, line, body, rest);
      assert lines == before + [line] + body + rest && NoHeaders(body) && Trim(line) == Header(edited) by { PartsHold(lines, edited, before, line, body, rest); }
      HeaderLine(line, edited);
      EditedBodyReads(body, editedSettings, "", "");
      SettledElsewhere(before, line, body, EditBody(body, editedSettings), rest, section, settings);
    } else {
      var gap, tables := AppendedParts(lines, edited, editedSettings);
      SettledAppend(lines, gap, tables, section, settings);
    }
  }

  lemma PartsHold(lines: seq<string>, section: string, before: seq<string>, line: string, body: seq<string>, rest: seq<string>)
    requires Parts(lines, section, before, line, body, rest)
    ensures lines == before + [line] + body + rest && NoHeaders(body) && Trim(line) == Header(section)
    ensures rest == [] || IsHeader(rest[0])
  {
  }

  lemma AppendedParts(lines: seq<string>, section: string, settings: map<string, string>) returns (gap: seq<string>, tables: seq<string>)
    requires HeaderAt(lines, Header(section)) == |lines|
    ensures EditLines(lines, section, settings) == lines + gap + tables
    ensures AllEmpty(gap) && tables == [Header(section)] + Assignments(settings, SortedKeys(settings.Keys)) && IsHeader(tables[0])
    ensures gap == if lines != [] && !Blank(lines[|lines| - 1]) then [""] else []
  {
    hide Blank, Header, Assignments, IsHeader, Trim, SortedKeys, HeaderAt, SectionBody, SectionRest, EditBody;
    HeaderIsHeader(section);
    gap, tables := Gap(lines), SectionLines(section, settings);
    assert lines + gap + tables == lines + (gap + tables);
  }

  // ----- the filter and the sections

  /** No line opens an owned table, and every header is whole. */
  predicate Clean(lines: seq<string>) {
    forall i :: 0 <= i < |lines| && IsTableLine(lines[i]) ==> !IsOwnedHeader(lines[i]) && IsHeader(lines[i])
  }

  function DropStateAfter(lines: seq<string>, drop: bool): bool {
    if lines == [] then drop else DropStateAfter(lines[1..], DropAfter(lines[0], drop))
  }

  lemma {:induction false} KeptConcat(a: seq<string>, b: seq<string>, drop: bool)
    ensures Kept(a + b, drop) == Kept(a, drop) + Kept(b, DropStateAfter(a, drop))
    ensures DropStateAfter(a + b, drop) == DropStateAfter(b, DropStateAfter(a, drop))
  {
    hide Kept, DropStateAfter, DropAfter;
    KeptNil(drop);
    if a == [] {
      assert a + b == b;
    } else {
      KeptCons(a[0], a[1..], drop);
      KeptCons(a[0], a[1..] + b, drop);
      KeptConcat(a[1..], b, DropAfter(a[0], drop));
      assert a == [a[0]] + a[1..] && a + b == [a[0]] + (a[1..] + b);
    }
  }

  lemma KeptNil(drop: bool)
    ensures Kept([], drop) == [] && DropStateAfter([], drop) == drop
  {
  }

  lemma KeptCons(line: string, lines: seq<string>, drop: bool)
    ensures var d := DropAfter(line, drop);
      && Kept([line] + lines, drop) == (if d then [] else [line]) + Kept(lines, d)
      && DropStateAfter([line] + lines, drop) == DropStateAfter(lines, d)
  {
    hide DropAfter;
    assert ([line] + lines)[1..] == lines;
  }

  lemma {:induction false} KeptOfClean(lines: seq<string>)
    requires Clean(lines)
    ensures Kept(lines, false) == lines && !DropStateAfter(lines, false)
  {
    hide IsTableLine, IsOwnedHeader, IsHeader;
    if lines != [] {
      KeptOfClean(lines[1..]);
    }
  }

  lemma {:induction false} KeptIsClean(lines: seq<string>, drop: bool)
    requires HeadersWhole(lines)
    ensures Clean(Kept(lines, drop))
  {
    hide IsTableLine, IsOwnedHeader, IsHeader;
    if lines != [] {
      KeptIsClean(lines[1..], DropAfter(lines[0], drop));
    }
  }

  lemma {:induction false} KeptOfOwned(lines: seq<string>, drop: bool)
    requires drop || (lines != [] && IsTableLine(lines[0]))
    requires forall i :: 0 <= i < |lines| && IsTableLine(lines[i]) ==> IsOwnedHeader(lines[i])
    ensures Kept(lines, drop) == [] && DropStateAfter(lines, drop)
  {
    hide IsTableLine, IsOwnedHeader, IsHeader;
    if lines != [] {
      KeptOfOwned(lines[1..], true);
    }
  }

  lemma KeptOfGap(drop: bool)
    ensures Kept([""], drop) == (if drop then [] else [""])
    ensures DropStateAfter([""], drop) == drop
  {
    assert !IsTableLine("");
  }

  /** After a dropped table the filter resumes at a header. */
  lemma {:induction false} KeptResumes(lines: seq<string>)
    requires HeadersWhole(lines)
    ensures Kept(lines, true) == [] || IsHeader(Kept(lines, true)[0])
  {
    hide IsTableLine, IsOwnedHeader, IsHeader;
    if lines != [] {
      KeptResumes(lines[1..]);
    }
  }

  lemma {:induction false} KeptBody(lines: seq<string>)
    requires HeadersWhole(lines)
    ensures BodyLength(Kept(lines, false)) == BodyLength(lines)
    ensures Kept(lines, false)[..BodyLength(lines)] == lines[..BodyLength(lines)]
  {
    hide IsTableLine, IsOwnedHeader, IsHeader, Kept, DropStateAfter;
    KeptNil(false);
    if lines != [] {
      var line, rest := lines[0], lines[1..];
      assert lines == [line] + rest;
      KeptCons(line, rest, false);
      if IsHeader(line) {
        HeaderIsTableLine(line);
        KeptResumes(rest);
      } else {
        KeptBody(rest);
        var kept := Kept(rest, false);
        assert ([line] + kept)[1..] == kept;
      }
    }
  }

  /** The filter leaves a settled section settled. */
  lemma {:induction false} SettledKept(lines: seq<string>, drop: bool, section: string, settings: map<string, string>)
    requires HeadersWhole(lines)
    requires forall i :: 0 <= i < |lines| && Trim(lines[i]) == Header(section) ==> IsTableLine(lines[i]) && !IsOwnedHeader(lines[i])
    requires Settled(lines, section, settings)
    ensures Settled(Kept(lines, drop), section, settings)
  {
    hide IsTableLine, IsOwnedHeader, IsHeader, Trim, Header, Fixed, BodyLength;
    var line, tail := lines[0], lines[1..];
    assert lines == [line] + tail;
    var d := DropAfter(line, drop);
    if Trim(line) == Header(section) {
      KeptBody(tail);
      var kept := Kept(lines, drop);
      assert kept == [line] + Kept(tail, false);
      assert kept[1..] == Kept(tail, false);
    } else {
      ConsSettled(line, tail, section, settings);
      SettledKept(tail, d, section, settings);
      ConsSettled(line, Kept(tail, d), section, settings);
      assert Kept(lines, drop) == if d then Kept(tail, d) else [line] + Kept(tail, d);
    }
  }

  // ----- where edited lines come from

  predicate ComesFrom(line: string, lines: seq<string>, section: string, settings: map<string, string>) {
    line in lines || line == "" || line == Header(section) || exists k :: k in settings && line == Assignment(k, settings[k])
  }

  lemma EditBodyComesFrom(body: seq<string>, section: string, settings: map<string, string>)
    ensures forall l :: l in EditBody(body, settings) ==> ComesFrom(l, body, section, settings)
  {
    hide Assignment, TomlKey, Seen, ContentLength, Header;
    var r := Rewrite(body, settings);
    var m := Missing(body, settings, SortedKeys(settings.Keys));
    forall l | l in r ensures ComesFrom(l, body, section, settings) {
      var i :| 0 <= i < |r| && r[i] == l;
      assert body[i] in body;
    }
    forall l | l in m ensures ComesFrom(l, body, section, settings) {}
  }

  lemma EditedComesFrom(lines: seq<string>, section: string, settings: map<string, string>)
    ensures forall l :: l in EditLines(lines, section, settings) ==> ComesFrom(l, lines, section, settings)
  {
    hide Assignment, Trim, IsHeader, EditBody, Header, BodyLength, HeaderAt;
    var start := HeaderAt(lines, Header(section));
    if start < |lines| {
      SectionParts(lines, start);
      var body := SectionBody(lines, start);
      EditBodyComesFrom(body, section, settings);
      forall l | l in EditBody(body, settings) ensures ComesFrom(l, lines, section, settings) {
        assert l in body ==> l in lines;
      }
    } else {
      var ks := SortedKeys(settings.Keys);
      forall l | l in Assignments(settings, ks) ensures ComesFrom(l, lines, section, settings) {
        var i :| 0 <= i < |ks| && l == Assignments(settings, ks)[i];
        assert ks[i] in settings;
      }
    }
  }

  lemma BareAssignmentIsNoTable(key: string, value: string)
    requires GoodKey(key) && !("[" <= key)
    ensures !IsTableLine(Assignment(key, value)) && !IsHeader(Assignment(key, value))
  {
    AssignmentIsNoHeader(key, value);
    hide EscapeAll, IsSpace;
    NotBlank();
    var line := Assignment(key, value);
    TrimOfTrimmed(line);
    assert line[..1] == key[..1];
  }

  lemma {:induction false} UnquotedStays(s: string)
    requires '\"' !in s && '\'' !in s
    ensures Unquoted(s) == s
  {
    if s != "" {
      UnquotedStays(s[1..]);
    }
  }

  /** The two sections the harness edits. */
  predicate EditedSection(section: string) {
    section == SHELL_SECTION || section == DESKTOP_SECTION
  }

  lemma EditedSectionsAreForeign(section: string)
    requires EditedSection(section)
    ensures OneLine(section) && Header(SHELL_SECTION) != Header(DESKTOP_SECTION)
    ensures forall line {:trigger Trim(line)} :: Trim(line) == Header(section) ==>
              IsTableLine(line) && !IsOwnedHeader(line) && IsHeader(line)
  {
    ForeignNames(section);
    assert |Header(SHELL_SECTION)| != |Header(DESKTOP_SECTION)|;
    hide Trim, IsOwnedHeader;
    forall line | Trim(line) == Header(section) ensures IsTableLine(line) && !IsOwnedHeader(line) && IsHeader(line) {
      HeaderLine(line, section);
      HeaderIsTableLine(line);
      ForeignHeader(line, section);
    }
  }

  lemma ForeignNames(section: string)
    requires EditedSection(section)
    ensures section != "" && section[0] != 'm' && '\"' !in section && '\'' !in section && OneLine(section)
  {
  }

  lemma ForeignHeader(line: string, section: string)
    requires Trim(line) == Header(section)
    requires section != "" && section[0] != 'm' && '\"' !in section && '\'' !in section
    ensures !IsOwnedHeader(line)
  {
    hide Trim, Unquoted;
    var h := Header(section);
    UnquotedStays(h);
    assert h[1] == section[0];
    assert "[mcp_servers.lightwave]"[1] == 'm' && "[mcp_servers.lightwave."[1] == 'm';
  }

  /** What the whole pipeline keeps of every line: headers are whole, and clean text stays clean. */
  lemma EditedKeepsHeaders(lines: seq<string>, section: string, settings: map<string, string>)
    requires BareKeys(settings) && EditedSection(section)
    ensures HeadersWhole(lines) ==> HeadersWhole(EditLines(lines, section, settings))
    ensures Clean(lines) ==> Clean(EditLines(lines, section, settings))
  {
    hide EditLines, IsTableLine, IsOwnedHeader, IsHeader, Assignment, GoodKey, EditedSection;
    var out := EditLines(lines, section, settings);
    EditedComesFrom(lines, section, settings);
    EditedSectionsAreForeign(section);
    HeaderIsHeader(section);
    KeptOfGap(false);
    forall i | 0 <= i < |out| && IsTableLine(out[i])
      ensures HeadersWhole(lines) ==> IsHeader(out[i])
      ensures Clean(lines) ==> !IsOwnedHeader(out[i]) && IsHeader(out[i])
    {
      NoTableOfOurs(out[i], lines, section, settings);
    }
  }

  lemma NoTableOfOurs(line: string, lines: seq<string>, section: string, settings: map<string, string>)
    requires BareKeys(settings) && ComesFrom(line, lines, section, settings) && IsTableLine(line)
    ensures line in lines || line == Header(section)
  {
    hide IsTableLine, Assignment, GoodKey;
    EmptyIsNoTable();
    if line !in lines && line != Header(section) && line != "" {
      var k :| k in settings && line == Assignment(k, settings[k]);
      BareAssignmentIsNoTable(k, settings[k]);
      assert false;
    }
  }

  lemma EmptyIsNoTable()
    ensures !IsTableLine("")
  {
  }

  // ----- whether the desktop section is there

  predicate Has(lines: seq<string>, section: string) {
    exists i :: 0 <= i < |lines| && Trim(lines[i]) == Header(section)
  }

  lemma HasIsFound(lines: seq<string>, section: string)
    ensures Has(lines, section) <==> HeaderAt(lines, Header(section)) < |lines|
  {
    hide Trim;
  }

  lemma HasConcat(a: seq<string>, b: seq<string>, section: string)
    ensures Has(a + b, section) <==> Has(a, section) || Has(b, section)
  {
    hide Trim;
    if Has(a, section) {
      var i :| 0 <= i < |a| && Trim(a[i]) == Header(section);
      assert (a + b)[i] == a[i];
    }
    if Has(b, section) {
      var i :| 0 <= i < |b| && Trim(b[i]) == Header(section);
      assert (a + b)[|a| + i] == b[i];
    }
  }

  /** Editing the shell section neither adds nor removes [desktop]. */
  lemma EditKeepsHas(lines: seq<string>, section: string, settings: map<string, string>, other: string)
    requires GoodKeys(settings) && Header(section) != Header(other)
    ensures Has(EditLines(lines, section, settings), other) <==> Has(lines, other)
  {
    hide Trim, IsHeader, EditBody, Header, Assignments, EditLines, Parts, GoodKey, Has;
    HasIsFound(lines, section);
    if HeaderAt(lines, Header(section)) < |lines| {
      var before, line, body, rest := CutAtSection(lines, section);
      EditOfParts(lines, section, settings, before, line, body, rest);
      PartsHold(lines, section, before, line, body, rest);
      var body' := EditBody(body, settings);
      EditedBodyReads(body, settings, "", "");
      NoHeadersHasNone(body, other);
      NoHeadersHasNone(body', other);
      HasConcat(before + [line] + body, rest, other);
      HasConcat(before + [line], body, other);
      HasConcat(before + [line] + body', rest, other);
      HasConcat(before + [line], body', other);
    } else {
      var gap, tables := AppendedParts(lines, section, settings);
      var ks := SortedKeys(settings.Keys);
      ReadAssignments(settings, ks, "", "");
      NoHeadersHasNone(Assignments(settings, ks), other);
      EmptyNoHeaders(gap);
      NoHeadersHasNone(gap, other);
      HasConcat(lines + gap, tables, other);
      HasConcat(lines, gap, other);
      HasConcat([Header(section)], Assignments(settings, ks), other);
      SectionHeaderHas(section, other);
    }
  }

  lemma SectionHeaderHas(section: string, other: string)
    requires Header(section) != Header(other)
    ensures !Has([Header(section)], other)
  {
    HeaderIsHeader(section);
    hide Trim;
  }

  lemma NoHeadersHasNone(lines: seq<string>, section: string)
    requires NoHeaders(lines)
    ensures !Has(lines, section)
  {
    hide Trim, IsHeader, Header;
    if Has(lines, section) {
      var i :| 0 <= i < |lines| && Trim(lines[i]) == Header(section);
      HeadersDiffer(lines[i], section);
      assert false;
    }
  }

  /** The filter neither adds nor removes a section that is not the server's. */
  lemma {:induction false} KeptKeepsHas(lines: seq<string>, drop: bool, section: string)
    requires forall line {:trigger Trim(line)} :: Trim(line) == Header(section) ==> IsTableLine(line) && !IsOwnedHeader(line)
    ensures Has(Kept(lines, drop), section) <==> Has(lines, section)
  {
    hide Trim, IsTableLine, IsOwnedHeader, Header;
    if lines != [] {
      var d := DropAfter(lines[0], drop);
      KeptKeepsHas(lines[1..], d, section);
      assert [lines[0]] + lines[1..] == lines;
      HasConcat([lines[0]], lines[1..], section);
      HasConcat(if d then [] else [lines[0]], Kept(lines[1..], d), section);
      assert Has([lines[0]], section) <==> Trim(lines[0]) == Header(section) by { assert [lines[0]][0] == lines[0]; }
    }
  }

  lemma {:induction false} StripKeepsHas(lines: seq<string>, section: string)
    ensures Has(StripEmpty(lines), section) <==> Has(lines, section)
    ensures StripEmpty(lines) <= lines
    decreases |lines|
  {
    hide Trim, Header, Has;
    if lines != [] && lines[|lines| - 1] == "" {
      var front := lines[..|lines| - 1];
      StripKeepsHas(front, section);
      assert lines == front + [""];
      HasConcat(front, [""], section);
      EmptyNoHeaders([""]);
      NoHeadersHasNone([""], section);
    }
  }

  // ----- the pipeline, on lines

  /** A clean text followed by an empty line and the rendered table. */
  function WithTable(lib: Toml, lines: seq<string>, table: Table): seq<string> {
    lines + [""] + OwnedLines(lib, table)
  }

  lemma StripOfProper(lines: seq<string>, gap: seq<string>)
    requires Proper(lines) && (gap == [] || gap == [""])
    ensures StripEmpty(lines + gap) == lines
  {
    assert gap == [""] ==> (lines + gap)[..|lines|] == lines;
  }

  /** With the table last already, the MCP step changes nothing. */
  lemma McpOfSettled(lib: Toml, lines: seq<string>, table: Table)
    requires Lawful(lib) && !HasLists(lib, table) && Clean(lines) && Proper(lines)
    ensures McpLines(lib, WithTable(lib, lines, table), table) == WithTable(lib, lines, table)
    ensures StripEmpty(Kept(WithTable(lib, lines, table), false)) == lines
  {
    hide Kept, StripEmpty, OwnedLines, Clean, IsTableLine, IsOwnedHeader, IsHeader, DropStateAfter, Proper, Lawful, HasLists;
    var owned := OwnedLines(lib, table);
    LawAt(lib, table);
    KeptConcat(lines + [""], owned, false);
    KeptConcat(lines, [""], false);
    KeptOfClean(lines);
    KeptOfGap(false);
    KeptOfOwned(owned, false);
    StripOfProper(lines, [""]);
    assert lines + [""] + [] == lines + [""];
  }

  /** With tables of others after the server's, the MCP step moves the server's last. */
  lemma McpMovesLast(lib: Toml, lines: seq<string>, table: Table, others: seq<string>)
    requires Lawful(lib) && !HasLists(lib, table) && Clean(lines) && Proper(lines)
    requires Clean(others) && Proper(others) && others != [] && IsTableLine(others[0])
    ensures McpLines(lib, WithTable(lib, lines, table) + [""] + others, table) == WithTable(lib, lines + [""] + others, table)
    ensures StripEmpty(Kept(WithTable(lib, lines, table) + [""] + others, false)) == lines + [""] + others
  {
    hide Kept, StripEmpty, OwnedLines, IsTableLine, IsOwnedHeader, IsHeader, DropStateAfter, Proper, Clean, Lawful, HasLists;
    var owned := OwnedLines(lib, table);
    LawAt(lib, table);
    var text := WithTable(lib, lines, table) + [""] + others;
    KeptOfClean(lines);
    KeptOfGap(false);
    KeptOfGap(true);
    KeptOfOwned(owned, false);
    KeptOfClean(others);
    DropResets(others);
    KeptOfFive(lines, [""], owned, [""], others, false);
    assert text == lines + [""] + owned + [""] + others;
    ProperConcat(lines, others);
    StripOfProper(lines + [""] + others, []);
    assert lines + [""] + others + [] == lines + [""] + others;
    assert Kept(text, false) == lines + [""] + others;
  }

  lemma LawAt(lib: Toml, table: Table)
    requires Lawful(lib)
    ensures OwnedShape(OwnedLines(lib, table)) && (!HasLists(lib, table) ==> OwnedBlock(OwnedLines(lib, table)))
    ensures OwnedText(lib, table) == Join(OwnedLines(lib, table)) + "\n"
    ensures HasLists(lib, table) <==> exists i :: 0 <= i < |OwnedLines(lib, table)| && IsListHeader(OwnedLines(lib, table)[i])
  {
    hide IsTableLine, IsOwnedHeader, IsHeader, IsListHeader, OwnedLines, OwnedText, HasLists;
    assert RendersOwned(lib, table);
  }

  lemma EchoAt(lib: Toml, config: string, table: Table)
    requires Lawful(lib) && lib.valid(config) && lib.valid(WithServer(lib, config, table))
    ensures Echoes(lib, lib.server(config), table, lib.server(WithServer(lib, config, table)))
  {
    hide RendersOwned, KeepsServer, WithServer, Echoes, Edited;
    assert ReadsBack(lib, config, table);
  }

  lemma DesktopKeepsServer(lib: Toml, config: string, path: string)
    requires Lawful(lib) && lib.valid(config) && lib.valid(Edited(config, DESKTOP_SECTION, RootSettings(path)))
    ensures lib.server(Edited(config, DESKTOP_SECTION, RootSettings(path))) == lib.server(config)
  {
    hide RendersOwned, ReadsBack, WithServer, Echoes, Edited;
    assert KeepsServer(lib, config, path);
  }

  lemma KeptOfFive(a: seq<string>, b: seq<string>, c: seq<string>, d: seq<string>, e: seq<string>, drop: bool)
    ensures var db := DropStateAfter(a, drop);
      var dc := DropStateAfter(b, db);
      var dd := DropStateAfter(c, dc);
      var de := DropStateAfter(d, dd);
      && Kept(a + b + c + d + e, drop) == Kept(a, drop) + Kept(b, db) + Kept(c, dc) + Kept(d, dd) + Kept(e, de)
  {
    hide Kept, DropStateAfter;
    KeptConcat(a + b + c + d, e, drop);
    KeptConcat(a + b + c, d, drop);
    KeptConcat(a + b, c, drop);
    KeptConcat(a, b, drop);
  }

  lemma ProperConcat(a: seq<string>, b: seq<string>)
    requires Proper(a) && Proper(b)
    ensures Proper(a + [""] + b)
  {
    hide OneLine, EndsWell;
    EmptyIsOneLine();
    assert (a + [""] + b)[|a| + |b|] == b[|b| - 1];
  }

  lemma DropResets(lines: seq<string>)
    requires lines != [] && IsTableLine(lines[0])
    ensures Kept(lines, true) == Kept(lines, false)
  {
  }

  /** Editing a section that is there leaves what follows the text alone. */
  lemma EditBeforeTables(lines: seq<string>, tables: seq<string>, section: string, settings: map<string, string>)
    requires GoodKeys(settings) && Has(lines, section) && tables != [] && IsHeader(tables[0])
    ensures EditLines(lines + [""] + tables, section, settings) == EditLines(lines, section, settings) + [""] + tables
  {
    hide Trim, IsHeader, EditBody, Header, EditLines, Has;
    HasIsFound(lines, section);
    var before, line, body, rest := CutAtSection(lines, section);
    EditOfParts(lines, section, settings, before, line, body, rest);
    EmptyNoHeaders([""]);
    if rest == [] {
      assert lines + [""] + tables == before + [line] + (body + [""]) + tables;
      EditOfParts(lines + [""] + tables, section, settings, before, line, body + [""], tables);
      EditBodyThenEmpty(body, settings);
    } else {
      assert lines + [""] + tables == before + [line] + body + (rest + [""] + tables);
      EditOfParts(lines + [""] + tables, section, settings, before, line, body, rest + [""] + tables);
    }
  }

  lemma EditBodyThenEmpty(body: seq<string>, settings: map<string, string>)
    ensures EditBody(body + [""], settings) == EditBody(body, settings) + [""]
  {
    hide Rewrite, ContentLength, Missing, SortedKeys;
    var r := Rewrite(body, settings);
    RewriteThenEmpty(body, settings);
    ContentThenEmpty(r);
    MissingThenEmpty(body, settings, SortedKeys(settings.Keys));
    var n := ContentLength(r);
    assert (r + [""])[..n] == r[..n] && (r + [""])[n..] == r[n..] + [""];
  }

  lemma RewriteThenEmpty(body: seq<string>, settings: map<string, string>)
    ensures Rewrite(body + [""], settings) == Rewrite(body, settings) + [""]
  {
    BlankLineReads();
    hide TomlKey, Assignment;
  }

  lemma ContentThenEmpty(body: seq<string>)
    ensures ContentLength(body + [""]) == ContentLength(body)
  {
    BlankLineReads();
    hide Blank;
    assert (body + [""])[..|body|] == body;
  }

  lemma {:induction false} MissingThenEmpty(body: seq<string>, settings: map<string, string>, ks: seq<string>)
    requires forall k :: k in ks ==> k in settings
    ensures Missing(body + [""], settings, ks) == Missing(body, settings, ks)
  {
    hide Assignment, Seen;
    if ks != [] {
      MissingThenEmpty(body, settings, ks[1..]);
      SeenConcat(body, [""], ks[0]);
      EmptySeesNothing([""], ks[0]);
    }
  }

  // ----- whole runs

  /** A text the shell section and the server's table are settled in, without the table. */
  predicate Normal(lines: seq<string>, fragment: Fragment) {
    && Clean(lines) && Proper(lines)
    && Settled(lines, SHELL_SECTION, fragment.settings)
  }

  /** The desktop root, if the fragment has one, is settled too. */
  predicate DesktopSettled(lines: seq<string>, fragment: Fragment) {
    fragment.root.Path? ==> Settled(lines, DESKTOP_SECTION, RootSettings(fragment.root.path))
  }

  lemma RootKeyIsBare(path: string)
    ensures BareKeys(RootSettings(path))
  {
  }

  lemma EditedIsTextOf(lines: seq<string>, section: string, settings: map<string, string>)
    requires Proper(lines)
    ensures Edited(TextOf(lines), section, settings) == TextOf(EditLines(lines, section, settings))
  {
    hide EditLines, Lines, Join;
    LinesOfText(lines);
  }

  lemma WithTableIsProper(lib: Toml, lines: seq<string>, table: Table)
    requires Lawful(lib) && Proper(lines)
    ensures Proper(WithTable(lib, lines, table)) && OwnedLines(lib, table) != []
    ensures IsHeader(OwnedLines(lib, table)[0]) && !Blank(OwnedLines(lib, table)[|OwnedLines(lib, table)| - 1])
  {
    hide OwnedLines, Lawful, EndsWell, OneLine, IsTableLine, IsOwnedHeader, IsHeader, Blank;
    LawAt(lib, table);
    ProperConcat(lines, OwnedLines(lib, table));
  }

  lemma SettledWithTable(lib: Toml, lines: seq<string>, table: Table, section: string, settings: map<string, string>)
    requires Lawful(lib) && Proper(lines) && Settled(lines, section, settings)
    ensures Settled(WithTable(lib, lines, table), section, settings)
  {
    hide OwnedLines, Lawful, Proper, IsHeader, Blank, Settled;
    WithTableIsProper(lib, lines, table);
    SettledAppend(lines, [""], OwnedLines(lib, table), section, settings);
  }

  /** A run on a normal text with the table last changes nothing, if the table is what is merged from it. */
  lemma NormalIsFixed(lib: Toml, lines: seq<string>, table: Table, fragment: Fragment)
    requires Lawful(lib) && !HasLists(lib, table) && fragment.server.Some? && Normal(lines, fragment)
    requires DesktopSettled(lines, fragment) && fragment.root != NotText && (fragment.root.Path? ==> "/" <= fragment.root.path)
    requires lib.valid(TextOf(WithTable(lib, lines, table)))
    requires Merge(lib.server(TextOf(WithTable(lib, lines, table))), fragment.server.value) == table
    ensures Applied(lib, TextOf(WithTable(lib, lines, table)), fragment) == Ok(TextOf(WithTable(lib, lines, table)))
  {
    hide OwnedLines, Lawful, Proper, Settled, Clean, Merge, TextOf, WithServer, Edited, EditLines, WithTable, McpLines, StripEmpty, RootSettings, HasLists;
    var all := WithTable(lib, lines, table);
    WithTableIsProper(lib, lines, table);
    ProperIsNonEmpty(lines);
    SettledWithTable(lib, lines, table, SHELL_SECTION, fragment.settings);
    SettledStays(all, SHELL_SECTION, fragment.settings);
    EditedIsTextOf(all, SHELL_SECTION, fragment.settings);
    McpOfSettled(lib, lines, table);
    McpTextIsLines(lib, all, table);
    if fragment.root.Path? {
      SettledWithTable(lib, lines, table, DESKTOP_SECTION, RootSettings(fragment.root.path));
      SettledStays(all, DESKTOP_SECTION, RootSettings(fragment.root.path));
      EditedIsTextOf(all, DESKTOP_SECTION, RootSettings(fragment.root.path));
    }
  }

  lemma ProperIsNonEmpty(lines: seq<string>)
    ensures Proper(lines) ==> lines != []
  {
  }

  /** The table the MCP step of a run renders. */
  function MergedBy(lib: Toml, text: string, fragment: Fragment): Table
    requires fragment.server.Some?
  {
    Merge(lib.server(Edited(text, SHELL_SECTION, fragment.settings)), fragment.server.value)
  }

  /** After the first two steps of any run the text is normal, with the table last. */
  lemma FirstSteps(lib: Toml, text: string, fragment: Fragment) returns (lines: seq<string>)
    requires Lawful(lib) && fragment.server.Some? && BareKeys(fragment.settings) && HeadersWhole(Lines(text))
    ensures Normal(lines, fragment)
    ensures WithServer(lib, Edited(text, SHELL_SECTION, fragment.settings), MergedBy(lib, text, fragment)) ==
            TextOf(WithTable(lib, lines, MergedBy(lib, text, fragment)))
    ensures lines == StripEmpty(Kept(EditLines(Lines(text), SHELL_SECTION, fragment.settings), false))
    ensures Has(lines, DESKTOP_SECTION) <==> Has(Lines(text), DESKTOP_SECTION)
  {
    hide OwnedLines, Lawful, Settled, Clean, Merge, TextOf, WithServer, EditLines, StripEmpty, Lines, Has, Kept, GoodKey, EndsWell, Trim, Header;
    var shell := EditLines(Lines(text), SHELL_SECTION, fragment.settings);
    ShellSteps(text, fragment.settings);
    assert Edited(text, SHELL_SECTION, fragment.settings) == TextOf(shell) by { TextOfEdited(text, SHELL_SECTION, fragment.settings); }
    var kept := Kept(shell, false);
    EditedSectionsAreForeign(SHELL_SECTION);
    EditedSectionsAreForeign(DESKTOP_SECTION);
    SettledKept(shell, false, SHELL_SECTION, fragment.settings);
    SettledStrip(kept, SHELL_SECTION, fragment.settings);
    KeptIsClean(shell, false);
    KeptOneLine(shell, false);
    StripIsTrim(kept);
    lines := StripEmpty(kept);
    StrippedIsClean(kept);
    McpTextIsLines(lib, shell, MergedBy(lib, text, fragment));
    KeptKeepsHas(shell, false, DESKTOP_SECTION);
    StripKeepsHas(kept, DESKTOP_SECTION);
  }

  lemma TextOfEdited(text: string, section: string, settings: map<string, string>)
    ensures Edited(text, section, settings) == TextOf(EditLines(Lines(text), section, settings))
  {
  }

  lemma ShellSteps(text: string, settings: map<string, string>)
    requires BareKeys(settings) && HeadersWhole(Lines(text))
    ensures var shell := EditLines(Lines(text), SHELL_SECTION, settings);
      && Proper(shell) && HeadersWhole(shell) && Settled(shell, SHELL_SECTION, settings)
      && (Has(shell, DESKTOP_SECTION) <==> Has(Lines(text), DESKTOP_SECTION))
  {
    hide Settled, EditLines, Lines, Has, GoodKey, Proper, Header, EndWell, AllOneLine, IsTableLine;
    LinesEndWell(text);
    EditedSectionsAreForeign(SHELL_SECTION);
    EditedProper(Lines(text), SHELL_SECTION, settings);
    EditedKeepsHeaders(Lines(text), SHELL_SECTION, settings);
    EditSettles(Lines(text), SHELL_SECTION, settings);
    EditKeepsHas(Lines(text), SHELL_SECTION, settings, DESKTOP_SECTION);
  }

  lemma StrippedIsClean(lines: seq<string>)
    requires Clean(lines)
    ensures Clean(StripEmpty(lines))
  {
    StripKeepsHas(lines, "");
    hide StripEmpty, IsTableLine, IsOwnedHeader, IsHeader;
    assert StripEmpty(lines) <= lines;
  }

  /** When one run is enough: no server table to move, no root to set, or [desktop] there already. */
  predicate OneRunIsEnough(text: string, fragment: Fragment) {
    fragment.server == None || !fragment.root.Path? || Has(Lines(text), DESKTOP_SECTION)
  }

  /** The desktop step on a normal text that has [desktop]: it is edited in front of the table. */
  lemma DesktopInPlace(lib: Toml, lines: seq<string>, table: Table, fragment: Fragment) returns (lines': seq<string>)
    requires Lawful(lib) && fragment.server.Some? && Normal(lines, fragment)
    requires fragment.root.Path? && Has(lines, DESKTOP_SECTION)
    ensures Normal(lines', fragment) && DesktopSettled(lines', fragment)
    ensures Edited(TextOf(WithTable(lib, lines, table)), DESKTOP_SECTION, RootSettings(fragment.root.path)) == TextOf(WithTable(lib, lines', table))
  {
    hide OwnedLines, Lawful, Settled, Clean, Merge, TextOf, EditLines, Lines, Has, GoodKey, EndsWell, Trim, Header, Edited, RootSettings, Blank;
    var root := RootSettings(fragment.root.path);
    RootKeyIsBare(fragment.root.path);
    EditedSectionsAreForeign(DESKTOP_SECTION);
    lines' := EditLines(lines, DESKTOP_SECTION, root);
    EditedKeepsHeaders(lines, DESKTOP_SECTION, root);
    EditedProper(lines, DESKTOP_SECTION, root);
    EditSettles(lines, DESKTOP_SECTION, root);
    EditOther(lines, DESKTOP_SECTION, root, SHELL_SECTION, fragment.settings);
    WithTableIsProper(lib, lines, table);
    EditBeforeTables(lines, OwnedLines(lib, table), DESKTOP_SECTION, root);
    EditedIsTextOf(WithTable(lib, lines, table), DESKTOP_SECTION, root);
  }

  /** The new [desktop] section. */
  function Desktop(path: string): seq<string> {
    [Header(DESKTOP_SECTION)] + Assignments(RootSettings(path), SortedKeys(RootSettings(path).Keys))
  }

  lemma DesktopIsTable(path: string)
    ensures Clean(Desktop(path)) && Proper(Desktop(path)) && Desktop(path) != [] && IsTableLine(Desktop(path)[0]) && IsHeader(Desktop(path)[0])
    ensures Settled(Desktop(path), DESKTOP_SECTION, RootSettings(path))
    ensures Trim(Desktop(path)[0]) == Header(DESKTOP_SECTION)
  {
    RootKeyIsBare(path);
    hide IsTableLine, IsOwnedHeader, IsHeader, Assignment, GoodKey, Trim, RootSettings, OneLine, Fixed, Header, EditLines, Settled;
    var empty: seq<string> := [];
    var root := RootSettings(path);
    assert EditLines(empty, DESKTOP_SECTION, root) == Desktop(path) by { EditOfNothing(path); }
    EditedKeepsHeaders(empty, DESKTOP_SECTION, root);
    EditedSectionsAreForeign(DESKTOP_SECTION);
    EditedProper(empty, DESKTOP_SECTION, root);
    EditSettles(empty, DESKTOP_SECTION, root);
    HeaderIsHeader(DESKTOP_SECTION);
    assert Desktop(path)[0] == Header(DESKTOP_SECTION);
  }

  lemma EditOfNothing(path: string)
    ensures EditLines([], DESKTOP_SECTION, RootSettings(path)) == Desktop(path)
  {
    hide Assignments, Header, SortedKeys, RootSettings;
  }

  lemma OwnedHasNoForeign(lines: seq<string>, section: string)
    requires OwnedBlock(lines) && EditedSection(section)
    ensures !Has(lines, section)
  {
    EditedSectionsAreForeign(section);
    hide Trim, IsTableLine, IsOwnedHeader, IsHeader, Header;
  }

  /** The desktop step on a normal text without [desktop]: it is appended after the table. */
  lemma DesktopAppended(lib: Toml, lines: seq<string>, table: Table, path: string)
    requires Lawful(lib) && !HasLists(lib, table) && Proper(lines) && !Has(lines, DESKTOP_SECTION)
    ensures Edited(TextOf(WithTable(lib, lines, table)), DESKTOP_SECTION, RootSettings(path)) ==
            TextOf(WithTable(lib, lines, table) + [""] + Desktop(path))
  {
    hide OwnedLines, Lawful, TextOf, EditLines, Lines, Has, Trim, Header, Edited, RootSettings, Blank, Proper, Assignments, IsHeader;
    var all, owned := WithTable(lib, lines, table), OwnedLines(lib, table);
    WithTableIsProper(lib, lines, table);
    OwnedHasNoForeign(owned, DESKTOP_SECTION) by { LawAt(lib, table); }
    EmptyNoHeaders([""]);
    NoHeadersHasNone([""], DESKTOP_SECTION);
    HasConcat(lines + [""], owned, DESKTOP_SECTION);
    HasConcat(lines, [""], DESKTOP_SECTION);
    HasIsFound(all, DESKTOP_SECTION);
    var gap, tables := AppendedParts(all, DESKTOP_SECTION, RootSettings(path));
    assert all[|all| - 1] == owned[|owned| - 1];
    EditedIsTextOf(all, DESKTOP_SECTION, RootSettings(path));
  }

  /** The run after [desktop] was appended: the server's table moves behind it. */
  lemma SecondRun(lib: Toml, lines: seq<string>, table: Table, fragment: Fragment)
    requires Lawful(lib) && !HasLists(lib, table) && fragment.server.Some? && Normal(lines, fragment)
    requires fragment.root.Path? && "/" <= fragment.root.path && !Has(lines, DESKTOP_SECTION)
    requires Merge(lib.server(TextOf(WithTable(lib, lines, table) + [""] + Desktop(fragment.root.path))), fragment.server.value) == table
    ensures var path := fragment.root.path;
      var text := TextOf(WithTable(lib, lines, table) + [""] + Desktop(path));
      var moved := lines + [""] + Desktop(path);
      && Normal(moved, fragment) && DesktopSettled(moved, fragment)
      && WithServer(lib, text, table) == TextOf(WithTable(lib, moved, table))
      && (Applied(lib, text, fragment).Ok? ==> lib.valid(text) && Applied(lib, text, fragment) == Ok(TextOf(WithTable(lib, moved, table))))
  {
    hide OwnedLines, Lawful, TextOf, EditLines, Edited, RootSettings, Blank, Proper, Settled, Clean, Desktop, StripEmpty, WithServer, McpLines, Merge, IsHeader, IsTableLine, WithTable, HasLists;
    var path := fragment.root.path;
    var desktop, all := Desktop(path), WithTable(lib, lines, table);
    var now, moved := all + [""] + desktop, lines + [""] + desktop;
    DesktopIsTable(path);
    ProperIsNonEmpty(lines);
    WithTableIsProper(lib, lines, table);
    ProperConcat(all, desktop);
    ProperConcat(lines, desktop);
    CleanConcat(lines, desktop);
    SettledWithTable(lib, lines, table, SHELL_SECTION, fragment.settings);
    SettledAppend(all, [""], desktop, SHELL_SECTION, fragment.settings);
    SettledAppend(lines, [""], desktop, SHELL_SECTION, fragment.settings);
    SettledStays(now, SHELL_SECTION, fragment.settings);
    EditedIsTextOf(now, SHELL_SECTION, fragment.settings);
    McpMovesLast(lib, lines, table, desktop);
    McpTextIsLines(lib, now, table);
    EmptyNoHeaders([""]);
    NoHeadersHasNone([""], DESKTOP_SECTION);
    HasConcat(lines, [""], DESKTOP_SECTION);
    SettledAfter(lines + [""], desktop, DESKTOP_SECTION, RootSettings(path));
    SettledWithTable(lib, moved, table, DESKTOP_SECTION, RootSettings(path));
    SettledStays(WithTable(lib, moved, table), DESKTOP_SECTION, RootSettings(path));
    WithTableIsProper(lib, moved, table);
    EditedIsTextOf(WithTable(lib, moved, table), DESKTOP_SECTION, RootSettings(path));
  }

  lemma {:induction false} SettledAfter(before: seq<string>, lines: seq<string>, section: string, settings: map<string, string>)
    requires !Has(before, section) && Settled(lines, section, settings)
    ensures Settled(before + lines, section, settings)
  {
    hide Trim, Header, Settled;
    if before == [] {
      assert before + lines == lines;
    } else {
      assert forall i :: 0 <= i < |before[1..]| ==> before[1..][i] == before[i + 1];
      SettledAfter(before[1..], lines, section, settings);
      ConsSettled(before[0], before[1..] + lines, section, settings);
      assert before + lines == [before[0]] + (before[1..] + lines);
    }
  }

  lemma CleanConcat(a: seq<string>, b: seq<string>)
    requires Clean(a) && Clean(b)
    ensures Clean(a + [""] + b)
  {
    EmptyIsNoTable();
    hide IsTableLine, IsOwnedHeader, IsHeader;
  }

  /** Without a server table the two sections are edited in place or appended, once. */
  lemma NoServerIsFixed(lib: Toml, text: string, fragment: Fragment)
    requires fragment.server == None && BareKeys(fragment.settings) && HeadersWhole(Lines(text))
    requires Applied(lib, text, fragment).Ok?
    ensures Applied(lib, Applied(lib, text, fragment).value, fragment) == Applied(lib, text, fragment)
  {
    hide TextOf, EditLines, Edited, RootSettings, Proper, Settled, IsHeader, IsTableLine, Lines, GoodKey;
    var shell := EditLines(Lines(text), SHELL_SECTION, fragment.settings);
    ShellSteps(text, fragment.settings);
    TextOfEdited(text, SHELL_SECTION, fragment.settings);
    if fragment.root.Path? {
      var root := RootSettings(fragment.root.path);
      var done := EditLines(shell, DESKTOP_SECTION, root);
      RootKeyIsBare(fragment.root.path);
      EditedSectionsAreForeign(DESKTOP_SECTION);
      EditedIsTextOf(shell, DESKTOP_SECTION, root);
      ProperParts(shell);
      EditedProper(shell, DESKTOP_SECTION, root);
      EditSettles(shell, DESKTOP_SECTION, root);
      EditOther(shell, DESKTOP_SECTION, root, SHELL_SECTION, fragment.settings);
      SettledStays(done, SHELL_SECTION, fragment.settings);
      SettledStays(done, DESKTOP_SECTION, root);
      EditedIsTextOf(done, SHELL_SECTION, fragment.settings);
      EditedIsTextOf(done, DESKTOP_SECTION, root);
    } else {
      SettledStays(shell, SHELL_SECTION, fragment.settings);
      EditedIsTextOf(shell, SHELL_SECTION, fragment.settings);
    }
  }

  lemma ProperParts(lines: seq<string>)
    requires Proper(lines)
    ensures AllOneLine(lines) && EndWell(lines) && lines != []
  {
  }

  lemma TextsDiffer(a: seq<string>, b: seq<string>)
    requires Proper(a) && Proper(b) && a != b
    ensures TextOf(a) != TextOf(b)
  {
    LinesOfText(a);
    LinesOfText(b);
  }

  /** Where the two runs differ: the line after the normal text and its empty line. */
  lemma TableMoved(lib: Toml, lines: seq<string>, table: Table, path: string)
    requires Lawful(lib) && !HasLists(lib, table) && Proper(lines)
    ensures TextOf(WithTable(lib, lines, table) + [""] + Desktop(path)) != TextOf(WithTable(lib, lines + [""] + Desktop(path), table))
  {
    hide OwnedLines, Lawful, TextOf, RootSettings, Blank, Proper, Clean, Desktop, IsHeader, Settled, IsTableLine, IsOwnedHeader, Trim;
    DesktopIsTable(path);
    WithTableIsProper(lib, lines, table);
    ProperConcat(WithTable(lib, lines, table), Desktop(path));
    ProperConcat(lines, Desktop(path));
    WithTableIsProper(lib, lines + [""] + Desktop(path), table);
    EditedSectionsAreForeign(DESKTOP_SECTION);
    LawAt(lib, table);
    var a, b := WithTable(lib, lines, table) + [""] + Desktop(path), WithTable(lib, lines + [""] + Desktop(path), table);
    assert a[|lines| + 1] == OwnedLines(lib, table)[0];
    assert b[|lines| + 1] == Desktop(path)[0];
    TextsDiffer(a, b);
  }

  /** What a run merges holds no list of tables. */
  predicate NoLists(lib: Toml, text: string, fragment: Fragment) {
    fragment.server.Some? ==> !HasLists(lib, MergedBy(lib, text, fragment))
  }

  /** Reading the rendered config again: the same table is merged, or one with a list of tables again. */
  lemma MergedAgain(lib: Toml, config: string, desired: Table)
    requires Lawful(lib) && lib.valid(config) && lib.valid(McpText(lib, config, desired))
    ensures var table, again := Merge(lib.server(config), desired), Merge(lib.server(McpText(lib, config, desired)), desired);
      if HasLists(lib, table) then HasLists(lib, again) else again == table
  {
    hide Merge, WithServer, Lawful, HasLists, Echoes;
    var table := Merge(lib.server(config), desired);
    EchoAt(lib, config, table);
    if HasLists(lib, table) {
      EchoKeepsLists(lib, lib.server(config), desired, lib.server(McpText(lib, config, desired)));
    } else {
      EchoMerges(lib, lib.server(config), desired, lib.server(McpText(lib, config, desired)));
    }
  }

  /** The first run of the pipeline, without lists: the text after it, and what will be merged from that. */
  lemma FirstRun(lib: Toml, text: string, fragment: Fragment, first: string) returns (lines: seq<string>)
    requires Lawful(lib) && BareKeys(fragment.settings) && HeadersWhole(Lines(text))
    requires fragment.server.Some? && NoLists(lib, text, fragment) && Applied(lib, text, fragment) == Ok(first)
    ensures Normal(lines, fragment) && lib.valid(first)
    ensures var table := MergedBy(lib, text, fragment);
      && Merge(lib.server(first), fragment.server.value) == table
      && (OneRunIsEnough(text, fragment) ==>
            DesktopSettled(lines, fragment) && first == TextOf(WithTable(lib, lines, table)))
      && (!OneRunIsEnough(text, fragment) ==>
            !Has(lines, DESKTOP_SECTION) && first == TextOf(WithTable(lib, lines, table) + [""] + Desktop(fragment.root.path)))
  {
    hide TextOf, Edited, RootSettings, Lines, GoodKey, WithServer, Lawful, Has, WithTable, Normal, HeadersWhole, Merge, Desktop, HasLists;
    var shell := Edited(text, SHELL_SECTION, fragment.settings);
    var table := MergedBy(lib, text, fragment);
    MergedAgain(lib, shell, fragment.server.value);
    lines := FirstSteps(lib, text, fragment);
    if fragment.root.Path? {
      DesktopKeepsServer(lib, McpText(lib, shell, fragment.server.value), fragment.root.path);
      if Has(lines, DESKTOP_SECTION) {
        lines := DesktopInPlace(lib, lines, table, fragment);
      } else {
        NormalIsProper(lines, fragment);
        DesktopAppended(lib, lines, table, fragment.root.path);
      }
    }
  }

  lemma NormalIsProper(lines: seq<string>, fragment: Fragment)
    requires Normal(lines, fragment)
    ensures Proper(lines)
  {
  }

  /** Without lists of tables one run settles the text exactly when nothing has to move behind the server's table. */
  lemma SettlesInOneRun(lib: Toml, text: string, fragment: Fragment, first: string)
    requires Lawful(lib) && BareKeys(fragment.settings) && HeadersWhole(Lines(text))
    requires NoLists(lib, text, fragment) && Applied(lib, text, fragment) == Ok(first)
    ensures Applied(lib, first, fragment) == Ok(first) <==> OneRunIsEnough(text, fragment)
  {
    hide TextOf, Edited, RootSettings, Lines, GoodKey, McpText, WithServer, Lawful, Has, WithTable, Normal, HeadersWhole, Merge, Desktop, HasLists;
    if fragment.server == None {
      NoServerIsFixed(lib, text, fragment);
    } else {
      var lines := FirstRun(lib, text, fragment, first);
      var table := MergedBy(lib, text, fragment);
      if OneRunIsEnough(text, fragment) {
        NormalIsFixed(lib, lines, table, fragment);
      } else {
        SecondRun(lib, lines, table, fragment);
        NormalIsProper(lines, fragment);
        TableMoved(lib, lines, table, fragment.root.path);
      }
    }
  }

  /** Without lists of tables two runs settle any text, and the second changes it exactly when one was not enough. */
  lemma SettlesInTwoRuns(lib: Toml, text: string, fragment: Fragment, first: string, second: string)
    requires Lawful(lib) && BareKeys(fragment.settings) && HeadersWhole(Lines(text)) && NoLists(lib, text, fragment)
    requires Applied(lib, text, fragment) == Ok(first) && Applied(lib, first, fragment) == Ok(second)
    ensures Applied(lib, second, fragment) == Ok(second)
    ensures second == first <==> OneRunIsEnough(text, fragment)
  {
    hide TextOf, Edited, RootSettings, Lines, GoodKey, McpText, WithServer, Lawful, Has, WithTable, HeadersWhole, Desktop, Clean, Settled, Proper, Merge, HasLists;
    SettlesInOneRun(lib, text, fragment, first);
    if !OneRunIsEnough(text, fragment) {
      var lines := FirstRun(lib, text, fragment, first);
      var table := MergedBy(lib, text, fragment);
      SecondRun(lib, lines, table, fragment);
      SecondIsMerged(lib, lines, table, fragment, first);
      NormalIsFixed(lib, lines + [""] + Desktop(fragment.root.path), table, fragment);
    }
  }

  /** What will be merged from the text after the second run. */
  lemma SecondIsMerged(lib: Toml, lines: seq<string>, table: Table, fragment: Fragment, first: string)
    requires Lawful(lib) && !HasLists(lib, table) && fragment.server.Some? && Normal(lines, fragment)
    requires fragment.root.Path? && "/" <= fragment.root.path && !Has(lines, DESKTOP_SECTION)
    requires first == TextOf(WithTable(lib, lines, table) + [""] + Desktop(fragment.root.path)) && lib.valid(first)
    requires Merge(lib.server(first), fragment.server.value) == table && Applied(lib, first, fragment).Ok?
    ensures var second := TextOf(WithTable(lib, lines + [""] + Desktop(fragment.root.path), table));
      && Applied(lib, first, fragment) == Ok(second) && lib.valid(second)
      && Merge(lib.server(second), fragment.server.value) == table
  {
    hide TextOf, Edited, RootSettings, Lawful, WithTable, Desktop, Merge, HasLists, Normal, WithServer, Has;
    SecondRun(lib, lines, table, fragment);
    MergedAgain(lib, first, fragment.server.value);
  }
}
