/**
 * The section editor before a reader that knows more spellings of a table header than the editor:
 * TOML lets a comment follow a header, and the editor does not take such a line for one. Exactly
 * when the edit is still a map update of the table.
 */
module TableReading {
  import opened Text
  import opened SectionEditor
  import opened SectionReading

  // ----- reading by tables

  /** The table a line opens, if it opens one. */
  type Headers = string -> Option<string>

  /** The first value the lines give `key` in `table`; `current` is the table in force, if any. */
  function ReadBy(see: Headers, lines: seq<string>, current: Option<string>, table: string, key: string): Option<string> {
    if lines == [] then None
    else if see(lines[0]).Some? then ReadBy(see, lines[1..], see(lines[0]), table, key)
    else if current == Some(table) && TomlKey(lines[0]) == Some(key) then Some(ValueText(lines[0]))
    else ReadBy(see, lines[1..], current, table, key)
  }

  /** The table in force after the lines. */
  function TableAfter(see: Headers, lines: seq<string>, current: Option<string>): Option<string> {
    if lines == [] then current
    else TableAfter(see, lines[1..], if see(lines[0]).Some? then see(lines[0]) else current)
  }

  /** How many lines open the table. */
  function Openings(see: Headers, lines: seq<string>, table: string): nat {
    if lines == [] then 0 else (if see(lines[0]) == Some(table) then 1 else 0) + Openings(see, lines[1..], table)
  }

  predicate OpensNothing(see: Headers, lines: seq<string>) {
    forall i :: 0 <= i < |lines| ==> see(lines[i]) == None
  }

  predicate NeverOpens(see: Headers, lines: seq<string>, table: string) {
    forall i :: 0 <= i < |lines| ==> see(lines[i]) != Some(table)
  }

  /** A reader to which the editor's own header opens the table, and only a line that starts with '[' opens any. */
  ghost predicate Recognises(see: Headers, section: string, table: string) {
    && (forall line :: Trim(line) == Header(section) ==> see(line) == Some(table))
    && (forall line :: see(line).Some? ==> Trim(line) != "" && Trim(line)[0] == '[')
  }

  /** Keys the editor recognises whose assignments do not look like headers. */
  predicate BareKeys(settings: map<string, string>) {
    forall k :: k in settings ==> GoodKey(k) && k[0] != '['
  }

  /**
   * The new lines are a map update of the old ones: the table takes the settings, no other key of any
   * table changes, and there is still one such table at most.
   */
  ghost predicate IsTableUpdate(see: Headers, lines: seq<string>, lines': seq<string>, table: string, settings: map<string, string>) {
    && Openings(see, lines', table) <= 1
    && forall t, key :: ReadBy(see, lines', None, t, key) ==
         if t == table && key in settings then Wanted(settings, key) else ReadBy(see, lines, None, t, key)
  }

  /**
   * What decides it before the edit: nothing in the body of the section opens a table, or, where the
   * editor finds no section, no line opens the table.
   */
  predicate EditorAgrees(see: Headers, lines: seq<string>, section: string, table: string) {
    var start := HeaderAt(lines, Header(section));
    if start < |lines| then OpensNothing(see, SectionBody(lines, start)) else NeverOpens(see, lines, table)
  }

  // ----- concatenation

  lemma {:induction false} ReadByConcat(see: Headers, a: seq<string>, b: seq<string>, current: Option<string>, table: string, key: string)
    ensures ReadBy(see, a + b, current, table, key) ==
            OrElse(ReadBy(see, a, current, table, key), ReadBy(see, b, TableAfter(see, a, current), table, key))
    ensures TableAfter(see, a + b, current) == TableAfter(see, b, TableAfter(see, a, current))
  {
    hide TomlKey, ValueText;
    if a == [] {
      assert a + b == b;
    } else {
      assert (a + b)[1..] == a[1..] + b;
      ReadByConcat(see, a[1..], b, if see(a[0]).Some? then see(a[0]) else current, table, key);
    }
  }

  lemma {:induction false} OpeningsConcat(see: Headers, a: seq<string>, b: seq<string>, table: string)
    ensures Openings(see, a + b, table) == Openings(see, a, table) + Openings(see, b, table)
  {
    if a == [] {
      assert a + b == b;
    } else {
      assert (a + b)[1..] == a[1..] + b;
      OpeningsConcat(see, a[1..], b, table);
    }
  }

  lemma {:induction false} NeverOpensCounts(see: Headers, lines: seq<string>, table: string)
    ensures NeverOpens(see, lines, table) <==> Openings(see, lines, table) == 0
  {
    if lines != [] {
      NeverOpensCounts(see, lines[1..], table);
      assert forall i :: 0 < i < |lines| ==> lines[i] == lines[1..][i - 1];
      assert forall i :: 0 <= i < |lines| - 1 ==> lines[1..][i] == lines[i + 1];
    }
  }

  // ----- what parts of a config say

  /** Lines that never open the table say nothing about it; once they open another one, it is closed. */
  lemma {:induction false} ReadElsewhere(see: Headers, lines: seq<string>, current: Option<string>, table: string, key: string)
    requires NeverOpens(see, lines, table)
    ensures current != Some(table) ==> ReadBy(see, lines, current, table, key) == None
    ensures current != Some(table) || !OpensNothing(see, lines) ==> TableAfter(see, lines, current) != Some(table)
  {
    hide TomlKey, ValueText;
    if lines != [] {
      ReadElsewhere(see, lines[1..], if see(lines[0]).Some? then see(lines[0]) else current, table, key);
      if see(lines[0]) == None && !OpensNothing(see, lines) {
        var i :| 0 <= i < |lines| && see(lines[i]) != None;
        assert lines[1..][i - 1] == lines[i];
      }
    }
  }

  /** Lines that open nothing say what they say in the table in force. */
  lemma {:induction false} ReadPlain(see: Headers, body: seq<string>, current: Option<string>, table: string, key: string)
    requires OpensNothing(see, body) && NoHeaders(body)
    ensures TableAfter(see, body, current) == current
    ensures ReadBy(see, body, current, table, key) == if current == Some(table) then Read(body, "", "", key) else None
  {
    hide TomlKey, ValueText, IsHeader;
    if body != [] {
      ReadPlain(see, body[1..], current, table, key);
    }
  }

  /** Lines that never assign the key give it no value. */
  lemma {:induction false} ReadUnseen(see: Headers, lines: seq<string>, current: Option<string>, table: string, key: string)
    requires !Seen(lines, key)
    ensures ReadBy(see, lines, current, table, key) == None
  {
    hide TomlKey, ValueText;
    if lines != [] {
      assert [lines[0]] + lines[1..] == lines;
      SeenCons(lines[0], lines[1..], key);
      ReadUnseen(see, lines[1..], if see(lines[0]).Some? then see(lines[0]) else current, table, key);
    }
  }

  // ----- the edit keeps lines that open nothing that way

  lemma AssignmentOpensNothing(see: Headers, section: string, table: string, key: string, value: string)
    requires Recognises(see, section, table) && GoodKey(key) && key[0] != '['
    ensures see(Assignment(key, value)) == None
  {
    hide Trim, GoodKey;
    AssignmentTrims(key, value);
    assert key != "" by { GoodKeyIsSome(key); }
    assert Trim(Assignment(key, value))[0] == key[0];
  }

  lemma GoodKeyIsSome(key: string)
    requires GoodKey(key)
    ensures key != ""
  {
  }

  lemma EditedBodyOpensNothing(see: Headers, body: seq<string>, section: string, table: string, settings: map<string, string>)
    requires Recognises(see, section, table) && BareKeys(settings) && OpensNothing(see, body)
    ensures OpensNothing(see, EditBody(body, settings))
  {
    hide Assignment, TomlKey, Seen, GoodKey, Missing, Trim, ContentLength;
    forall k | k in settings ensures see(Assignment(k, settings[k])) == None {
      AssignmentOpensNothing(see, section, table, k, settings[k]);
    }
    var m := Missing(body, settings, SortedKeys(settings.Keys));
    forall i | 0 <= i < |m| ensures see(m[i]) == None { assert m[i] in m; }
  }

  // ----- where the editor agrees, the edit is an update

  /** The config around the section the editor finds. */
  lemma SectionShape(see: Headers, lines: seq<string>, section: string, table: string)
    returns (before: seq<string>, body: seq<string>, rest: seq<string>)
    requires Recognises(see, section, table) && Openings(see, lines, table) <= 1
    requires HeaderAt(lines, Header(section)) < |lines|
    ensures body == SectionBody(lines, HeaderAt(lines, Header(section)))
    ensures lines == before + body + rest && NoHeaders(body)
    ensures forall settings :: EditLines(lines, section, settings) == before + EditBody(body, settings) + rest
    ensures NeverOpens(see, body + rest, table) && TableAfter(see, before, None) == Some(table)
    ensures forall key :: ReadBy(see, before, None, table, key) == None
  {
    hide *;
    var start := HeaderAt(lines, Header(section));
    var front, line := lines[..start], lines[start];
    before, body, rest := lines[..start + 1], SectionBody(lines, start), SectionRest(lines, start);
    forall settings ensures EditLines(lines, section, settings) == before + EditBody(body, settings) + rest {
      EditFound(lines, section, settings);
    }
    SectionParts(lines, start);
    SplitLine(lines, start, body, rest);
    SectionIsCurrent(see, front, line, body + rest, section, table);
    forall key ensures ReadBy(see, before, None, table, key) == None {
      ReadElsewhere(see, front, None, table, key);
      ReadByConcat(see, front, [line], None, table, key);
      OneLineReads(see, line, TableAfter(see, front, None), table, key);
      NeitherReads(None, None);
    }
  }

  lemma EditFound(lines: seq<string>, section: string, settings: map<string, string>)
    requires HeaderAt(lines, Header(section)) < |lines|
    ensures var start := HeaderAt(lines, Header(section));
      EditLines(lines, section, settings) ==
      lines[..start + 1] + EditBody(SectionBody(lines, start), settings) + SectionRest(lines, start)
  {
    hide EditBody, SectionBody, SectionRest, Trim, HeaderAt, Header;
  }

  lemma NeitherReads(a: Option<string>, b: Option<string>)
    requires a == None && b == None
    ensures OrElse(a, b) == None
  {
  }

  lemma SplitLine(lines: seq<string>, start: nat, body: seq<string>, rest: seq<string>)
    requires start < |lines| && lines == lines[..start + 1] + body + rest
    ensures lines[..start + 1] == lines[..start] + [lines[start]]
    ensures lines == lines[..start] + [lines[start]] + (body + rest)
  {
  }

  lemma EditInSection(see: Headers, lines: seq<string>, section: string, table: string, settings: map<string, string>)
    requires Recognises(see, section, table) && BareKeys(settings)
    requires Openings(see, lines, table) <= 1
    requires HeaderAt(lines, Header(section)) < |lines| && EditorAgrees(see, lines, section, table)
    ensures IsTableUpdate(see, lines, EditLines(lines, section, settings), table, settings)
  {
    var before, body, rest := SectionShape(see, lines, section, table);
    AgreesInSection(see, lines, section, table);
    hide ReadBy, TableAfter, Openings, OpensNothing, NeverOpens, Recognises, EditorAgrees, EditBody, EditLines, Read, Quote,
      HeaderAt, Header, SectionBody, NoHeaders, GoodKey, Trim;
    var out := EditBody(body, settings);
    EditedBodyOpensNothing(see, body, section, table, settings);
    EditedBodyReads(body, settings, "", "");
    BodyOpenings(see, before, body, rest, table);
    BodyOpenings(see, before, out, rest, table);
    forall t, key ensures ReadBy(see, before + out + rest, None, t, key) ==
      if t == table && key in settings then Wanted(settings, key) else ReadBy(see, lines, None, t, key)
    {
      EditedBodyReads(body, settings, "", key);
      BodyReads(see, before, body, rest, t, key);
      BodyReads(see, before, out, rest, t, key);
    }
  }

  /** After the editor's header the table is in force, and if it is opened once, nowhere else. */
  lemma SectionIsCurrent(see: Headers, before: seq<string>, line: string, after: seq<string>, section: string, table: string)
    requires Recognises(see, section, table) && Trim(line) == Header(section)
    requires Openings(see, before + [line] + after, table) <= 1
    ensures NeverOpens(see, before, table) && NeverOpens(see, after, table)
    ensures see(line) == Some(table) && TableAfter(see, before + [line], None) == Some(table)
  {
    hide Trim, ReadBy;
    OpeningsConcat(see, before + [line], after, table);
    OpeningsConcat(see, before, [line], table);
    NeverOpensCounts(see, before, table);
    NeverOpensCounts(see, after, table);
    ReadByConcat(see, before, [line], None, table, "");
  }

  lemma OneLineReads(see: Headers, line: string, current: Option<string>, table: string, key: string)
    requires see(line).Some?
    ensures ReadBy(see, [line], current, table, key) == None
  {
  }

  lemma BodyOpenings(see: Headers, before: seq<string>, body: seq<string>, rest: seq<string>, table: string)
    requires OpensNothing(see, body)
    ensures Openings(see, before + body + rest, table) == Openings(see, before, table) + Openings(see, rest, table)
  {
    OpeningsConcat(see, before + body, rest, table);
    OpeningsConcat(see, before, body, table);
    NeverOpensCounts(see, body, table);
  }

  lemma BodyReads(see: Headers, before: seq<string>, body: seq<string>, rest: seq<string>, table: string, key: string)
    requires OpensNothing(see, body) && NoHeaders(body)
    ensures var c := TableAfter(see, before, None);
      ReadBy(see, before + body + rest, None, table, key) ==
      OrElse(OrElse(ReadBy(see, before, None, table, key), if c == Some(table) then Read(body, "", "", key) else None),
             ReadBy(see, rest, c, table, key))
  {
    hide ReadBy, TableAfter, Read, NoHeaders;
    var c := TableAfter(see, before, None);
    ReadByConcat(see, before + body, rest, None, table, key);
    ReadByConcat(see, before, body, None, table, key);
    ReadPlain(see, body, c, table, key);
  }

  lemma AppendedShape(lines: seq<string>, section: string, settings: map<string, string>)
    requires HeaderAt(lines, Header(section)) == |lines|
    ensures EditLines(lines, section, settings) ==
            lines + Gap(lines) + [Header(section)] + Assignments(settings, SortedKeys(settings.Keys)) + []
  {
    hide Trim, Assignments, SortedKeys, Gap, Header, HeaderAt, EditBody, SectionBody, SectionRest;
    var body := Assignments(settings, SortedKeys(settings.Keys));
    Append(lines, Gap(lines), [Header(section)], body);
  }

  lemma Append(a: seq<string>, b: seq<string>, c: seq<string>, d: seq<string>)
    ensures a + (b + (c + d)) == a + b + c + d + []
  {
  }

  lemma EditAtEnd(see: Headers, lines: seq<string>, section: string, table: string, settings: map<string, string>)
    requires Recognises(see, section, table) && BareKeys(settings)
    requires HeaderAt(lines, Header(section)) == |lines| && NeverOpens(see, lines, table)
    ensures IsTableUpdate(see, lines, EditLines(lines, section, settings), table, settings)
  {
    hide ReadBy, TableAfter, Openings, OpensNothing, NeverOpens, Recognises, EditLines, Read, Quote, HeaderAt, Header, Gap,
      Assignments, NoHeaders, GoodKey, Trim;
    var ks := SortedKeys(settings.Keys);
    var before, body := lines + Gap(lines) + [Header(section)], Assignments(settings, ks);
    AppendedShape(lines, section, settings);
    AppendedOpensOnce(see, lines, section, table, settings);
    ReadAssignments(settings, ks, "", "");
    BodyOpenings(see, before, body, [], table);
    forall t, key ensures ReadBy(see, before + body + [], None, t, key) ==
      if t == table && key in settings then Wanted(settings, key) else ReadBy(see, lines, None, t, key)
    {
      ReadAssignments(settings, ks, "", key);
      BodyReads(see, before, body, [], t, key);
      NothingReads(see, Some(table), t, key);
      GapReads(see, lines, section, table, t, key);
      ReadElsewhere(see, lines, None, table, key);
    }
  }

  lemma NothingReads(see: Headers, current: Option<string>, table: string, key: string)
    ensures ReadBy(see, [], current, table, key) == None
  {
  }

  lemma AppendedOpensOnce(see: Headers, lines: seq<string>, section: string, table: string, settings: map<string, string>)
    requires Recognises(see, section, table) && BareKeys(settings) && NeverOpens(see, lines, table)
    ensures Openings(see, lines + Gap(lines) + [Header(section)], table) == 1
    ensures Openings(see, [], table) == 0
    ensures OpensNothing(see, Assignments(settings, SortedKeys(settings.Keys)))
  {
    hide Trim, GoodKey, Assignment, SortedKeys, Blank;
    OpeningsConcat(see, lines + Gap(lines), [Header(section)], table);
    OpeningsConcat(see, lines, Gap(lines), table);
    NeverOpensCounts(see, lines, table);
    HeaderIsHeader(section);
    EmptyOpensNothing(see, section, table);
    NeverOpensCounts(see, Gap(lines), table);
    forall k | k in settings ensures see(Assignment(k, settings[k])) == None {
      AssignmentOpensNothing(see, section, table, k, settings[k]);
    }
  }

  lemma EmptyOpensNothing(see: Headers, section: string, table: string)
    requires Recognises(see, section, table)
    ensures see("") == None
  {
    assert Trim("") == "";
  }

  lemma GapReads(see: Headers, lines: seq<string>, section: string, table: string, t: string, key: string)
    requires Recognises(see, section, table)
    ensures var before := lines + Gap(lines) + [Header(section)];
      && TableAfter(see, before, None) == Some(table)
      && ReadBy(see, before, None, t, key) == ReadBy(see, lines, None, t, key)
  {
    hide Trim, Blank, IsHeader, TomlKey, ValueText;
    HeaderIsHeader(section);
    BlankLineReads();
    EmptyOpensNothing(see, section, table);
    ReadByConcat(see, lines + Gap(lines), [Header(section)], None, t, key);
    ReadByConcat(see, lines, Gap(lines), None, t, key);
  }

  // ----- where it does not, some edit is none

  /** Without the table's own header the section is appended: the table is there twice. */
  lemma AppendedTwice(see: Headers, lines: seq<string>, section: string, table: string)
    requires Recognises(see, section, table)
    requires HeaderAt(lines, Header(section)) == |lines| && !NeverOpens(see, lines, table)
    ensures !IsTableUpdate(see, lines, EditLines(lines, section, map[]), table, map[])
  {
    hide Trim, ReadBy;
    var gap := Gap(lines);
    var tables := SectionLines(section, map[]);
    assert EditLines(lines, section, map[]) == lines + gap + tables;
    HeaderIsHeader(section);
    assert tables[0] == Header(section);
    OpeningsConcat(see, lines + gap, tables, table);
    OpeningsConcat(see, lines, gap, table);
    NeverOpensCounts(see, lines, table);
    NeverOpensCounts(see, tables, table);
  }

  /** A key no line assigns. */
  lemma FreshKey(lines: seq<string>) returns (key: string)
    ensures GoodKey(key) && key[0] != '[' && !Seen(lines, key)
  {
    var n := LengthBound(lines);
    key := seq(n, _ => 'x');
    assert forall c :: c in key ==> c == 'x';
    forall i | 0 <= i < |lines| ensures TomlKey(lines[i]) != Some(key) { KeyIsShort(lines[i]); }
  }

  lemma KeyIsShort(line: string)
    ensures TomlKey(line).Some? ==> |TomlKey(line).value| <= |line|
  {
    TrimCuts(line);
    TrimCuts(Trim(line)[..IndexOfEquals(Trim(line))]);
  }

  lemma {:induction false} LengthBound(lines: seq<string>) returns (n: nat)
    ensures n > 0 && forall i :: 0 <= i < |lines| ==> |lines[i]| < n
  {
    n := 1;
    if lines != [] {
      var m := LengthBound(lines[1..]);
      n := if m > |lines[0]| then m else |lines[0]| + 1;
      forall i | 0 <= i < |lines| ensures |lines[i]| < n { assert i > 0 ==> lines[i] == lines[1..][i - 1]; }
    }
  }

  /** Editing with one key that no line assigns puts its assignment before the blank tail. */
  lemma FreshEdit(body: seq<string>, key: string, value: string)
    requires !Seen(body, key)
    ensures EditBody(body, map[key := value]) ==
            body[..ContentLength(body)] + [Assignment(key, value)] + body[ContentLength(body)..]
  {
    hide TomlKey, Assignment, ContentLength;
    var settings := map[key := value];
    assert Rewrite(body, settings) == body;
    SortedKeysOfOne(key);
    assert settings.Keys == {key};
    assert Missing(body, settings, [key]) == [Assignment(key, value)];
  }

  lemma SortedKeysOfOne(key: string)
    ensures SortedKeys({key}) == [key]
  {
    var k := Least({key});
    assert k == key && {key} - {k} == {};
  }

  /** A key no line assigns ends up in the table that is in force at the end of the body. */
  lemma FreshKeyIsElsewhere(see: Headers, before: seq<string>, body: seq<string>, rest: seq<string>,
                            section: string, table: string, key: string)
    requires Recognises(see, section, table) && GoodKey(key) && key[0] != '[' && !Seen(before + body + rest, key)
    requires !OpensNothing(see, body) && NeverOpens(see, body + rest, table) && TableAfter(see, before, None) == Some(table)
    ensures ReadBy(see, before + EditBody(body, map[key := ""]) + rest, None, table, key) == None
  {
    hide *;
    var n := ContentLength(body);
    SplitSeen(before, body, rest, n, key);
    FreshEdit(body, key, "");
    Regroup(before, body[..n], [Assignment(key, "")], body[n..], rest);
    LastTable(see, body, rest, section, table, key);
    ReadByConcat(see, before, body[..n], None, table, key);
    AssignmentOpensNothing(see, section, table, key, "");
    ElsewhereReads(see, before + body[..n], Assignment(key, ""), body[n..] + rest, table, key);
  }

  /** A line of the body that opens another table takes a new key of the section away. */
  lemma KeyLandsElsewhere(see: Headers, lines: seq<string>, section: string, table: string) returns (settings: map<string, string>)
    requires Recognises(see, section, table) && Openings(see, lines, table) <= 1
    requires HeaderAt(lines, Header(section)) < |lines| && !EditorAgrees(see, lines, section, table)
    ensures BareKeys(settings) && !IsTableUpdate(see, lines, EditLines(lines, section, settings), table, settings)
  {
    AgreesInSection(see, lines, section, table);
    hide *;
    var before, body, rest := SectionShape(see, lines, section, table);
    var key := FreshKey(lines);
    settings := map[key := ""];
    BareKey(key, "");
    FreshKeyIsElsewhere(see, before, body, rest, section, table, key);
    NotAnUpdate(see, lines, EditLines(lines, section, settings), table, settings, key);
  }

  lemma AgreesInSection(see: Headers, lines: seq<string>, section: string, table: string)
    requires HeaderAt(lines, Header(section)) < |lines|
    ensures EditorAgrees(see, lines, section, table) <==> OpensNothing(see, SectionBody(lines, HeaderAt(lines, Header(section))))
  {
  }

  lemma BareKey(key: string, value: string)
    requires GoodKey(key) && key[0] != '['
    ensures BareKeys(map[key := value])
  {
  }

  lemma Regroup(a: seq<string>, b: seq<string>, c: seq<string>, d: seq<string>, e: seq<string>)
    ensures a + (b + c + d) + e == (a + b) + c + (d + e)
  {
  }

  lemma NotAnUpdate(see: Headers, lines: seq<string>, lines': seq<string>, table: string, settings: map<string, string>, key: string)
    requires key in settings && ReadBy(see, lines', None, table, key) == None
    ensures !IsTableUpdate(see, lines, lines', table, settings)
  {
    hide ReadBy;
  }

  lemma SplitSeen(before: seq<string>, body: seq<string>, rest: seq<string>, n: nat, key: string)
    requires n <= |body| && !Seen(before + body + rest, key)
    ensures !Seen(before + body[..n], key) && !Seen(body[n..] + rest, key) && !Seen(body, key)
  {
    hide Seen;
    assert before + body + rest == (before + body[..n]) + (body[n..] + rest);
    SeenConcat(before + body[..n], body[n..] + rest, key);
    SeenConcat(before + body, rest, key);
    SeenConcat(before, body, key);
  }

  lemma LastTable(see: Headers, body: seq<string>, rest: seq<string>, section: string, table: string, key: string)
    requires Recognises(see, section, table) && !OpensNothing(see, body) && NeverOpens(see, body + rest, table)
    ensures TableAfter(see, body[..ContentLength(body)], Some(table)) != Some(table)
  {
    hide Trim, ReadBy, TableAfter;
    var n := ContentLength(body);
    var i :| 0 <= i < |body| && see(body[i]) != None;
    assert !Blank(body[i]);
    assert body[..n][i] == body[i];
    forall j | 0 <= j < n ensures see(body[..n][j]) != Some(table) { assert body[..n][j] == (body + rest)[j]; }
    ReadElsewhere(see, body[..n], Some(table), table, key);
  }

  lemma ElsewhereReads(see: Headers, left: seq<string>, line: string, right: seq<string>, table: string, key: string)
    requires !Seen(left, key) && !Seen(right, key)
    requires TableAfter(see, left, None) != Some(table) && see(line) == None
    ensures ReadBy(see, left + [line] + right, None, table, key) == None
  {
    hide Seen, TomlKey, ValueText;
    var c := TableAfter(see, left, None);
    ReadByConcat(see, left + [line], right, None, table, key);
    ReadByConcat(see, left, [line], None, table, key);
    ReadUnseen(see, left, None, table, key);
    ReadUnseen(see, right, TableAfter(see, left + [line], None), table, key);
  }

  // ----- exactly

  /**
   * To a reader that finds the table at most once, every edit is a map update of it if and only if
   * no line the editor takes into the section opens a table or, where the editor finds no section,
   * no line opens this one.
   */
  lemma EditIsTableUpdateExactly(see: Headers, lines: seq<string>, section: string, table: string)
    requires Recognises(see, section, table) && Openings(see, lines, table) <= 1
    ensures (forall settings | BareKeys(settings) ::
               IsTableUpdate(see, lines, EditLines(lines, section, settings), table, settings)) <==>
            EditorAgrees(see, lines, section, table)
  {
    hide Recognises, IsTableUpdate, HeaderAt, EditLines, Openings, SectionBody;
    var start := HeaderAt(lines, Header(section));
    if EditorAgrees(see, lines, section, table) {
      forall settings | BareKeys(settings)
        ensures IsTableUpdate(see, lines, EditLines(lines, section, settings), table, settings)
      {
        if start < |lines| {
          EditInSection(see, lines, section, table, settings);
        } else {
          EditAtEnd(see, lines, section, table, settings);
        }
      }
    } else if start < |lines| {
      var settings := KeyLandsElsewhere(see, lines, section, table);
      assert BareKeys(settings);
    } else {
      AppendedTwice(see, lines, section, table);
      assert BareKeys(map[]);
    }
  }

  // ----- headers with comments

  /** Where the comment of a line starts: the first '#' outside quotes, or |s|; `quote` is the open quote, or a blank. */
  function CommentAt(s: string, quote: char): (i: nat)
    ensures i <= |s| && (i < |s| ==> s[i] == '#')
  {
    if s == "" || (quote == ' ' && s[0] == '#') then 0
    else if quote == '\"' && s[0] == '\\' && |s| > 1 then 2 + CommentAt(s[2..], quote)
    else if s[0] == quote then 1 + CommentAt(s[1..], ' ')
    else if quote == ' ' && (s[0] == '\"' || s[0] == '\'') then 1 + CommentAt(s[1..], s[0])
    else 1 + CommentAt(s[1..], quote)
  }

  /** A header of TOML v1.0.0 as written, without the comment that may follow it. */
  function TableHeader(line: string): Option<string> {
    var t := Trim(line);
    if t == "" || t[0] != '[' then None else
    var h := TrimRight(t[..CommentAt(t, ' ')]);
    if h != "" && h[|h| - 1] == ']' then Some(h) else None
  }

  /** Such a reader takes the editor's header for the section, unless the section's name looks like a comment. */
  lemma CommentsAreRecognised(section: string)
    requires CommentAt(Header(section), ' ') == |Header(section)|
    ensures Recognises(TableHeader, section, Header(section))
  {
    hide CommentAt, Trim;
    var h := Header(section);
    assert h[..|h|] == h;
    assert TrimRight(h) == h;
  }

  lemma LinesOfEdited(text: string, section: string, settings: map<string, string>)
    requires BareKeys(settings) && OneLine(section)
    ensures Lines(Edited(text, section, settings)) == EditLines(Lines(text), section, settings)
  {
    hide EditLines, Split, Join, GoodKey, Lines, Edited;
    var out := EditLines(Lines(text), section, settings);
    LinesEndWell(text);
    EditedText(text, section, settings);
    EditedEndsWell(Lines(text), section, settings);
    EditedIsOneLine(Lines(text), section, settings);
    SplitOfJoin(out);
  }

  /** The same for whole texts and a reader that knows headers with comments. */
  lemma EditedTextIsTableUpdateExactly(text: string, section: string)
    requires OneLine(section) && CommentAt(Header(section), ' ') == |Header(section)|
    requires Openings(TableHeader, Lines(text), Header(section)) <= 1
    ensures (forall settings | BareKeys(settings) ::
               IsTableUpdate(TableHeader, Lines(text), Lines(Edited(text, section, settings)), Header(section), settings)) <==>
            EditorAgrees(TableHeader, Lines(text), section, Header(section))
  {
    CommentsAreRecognised(section);
    hide *;
    forall settings | BareKeys(settings)
      ensures Lines(Edited(text, section, settings)) == EditLines(Lines(text), section, settings)
    {
      LinesOfEdited(text, section, settings);
    }
    EditIsTableUpdateExactly(TableHeader, Lines(text), section, Header(section));
  }

  // ----- a header with a comment

  lemma {:induction false} CommentFound(before: string, after: string)
    requires forall c :: c in before ==> c != '#' && c != '\"' && c != '\''
    ensures CommentAt(before + "#" + after, ' ') == |before|
  {
    var s := before + "#" + after;
    if before != "" {
      assert forall c :: c in before[1..] ==> c in before;
      CommentFound(before[1..], after);
      assert s[1..] == before[1..] + "#" + after;
      assert s[0] == before[0] && before[0] in before;
    }
  }

  const NOTED := "[o] # note"

  lemma NotedLine()
    ensures !IsHeader(NOTED) && TomlKey(NOTED) == None && TableHeader(NOTED) == Some("[o]")
  {
    NotedTrims();
    NotedParts();
    hide Trim, TrimRight, CommentAt;
    CommentFound("[o] ", " note");
    assert NOTED[..4] == "[o] ";
  }

  lemma NotedParts()
    ensures NOTED == "[o] " + "#" + " note" && '=' !in NOTED
  {
  }

  lemma NotedTrims()
    ensures Trim(NOTED) == NOTED && TrimRight("[o] ") == "[o]"
  {
    TrimOfTrimmed(NOTED);
    assert "[o] "[..3] == "[o]";
    assert TrimRight("[o]") == "[o]";
  }

  lemma PlainSection()
    ensures Trim("[s]") == Header("s") == "[s]" && TableHeader("[s]") == Some("[s]") && Recognises(TableHeader, "s", "[s]")
  {
    HeaderIsHeader("s");
    assert "[s]"[1..] == "s]" && "[s]"[1..][1..] == "]" && "[s]"[1..][1..][1..] == "";
    assert CommentAt("[s]", ' ') == 3;
    CommentsAreRecognised("s");
  }

  /** A section of two lines the second of which assigns the one wanted key. */
  lemma EditSecondLine(a: string, b: string, c: string, section: string, key: string, value: string)
    requires Trim(a) == Header(section) && !IsHeader(b) && !IsHeader(c)
    requires TomlKey(b) == None && TomlKey(c) == Some(key)
    ensures EditLines([a, b, c], section, map[key := value]) == [a, b, Assignment(key, value)]
    ensures HeaderAt([a, b, c], Header(section)) == 0 && SectionBody([a, b, c], 0) == [b, c]
  {
    hide Trim, TomlKey, IsHeader, Assignment, EditBody, Header;
    var lines, body := [a, b, c], [b, c];
    assert lines[1..] == body;
    BodyLengthConcat(body, []);
    assert body + [] == body;
    EditTwoLines(b, c, key, value);
  }

  lemma EditTwoLines(b: string, c: string, key: string, value: string)
    requires TomlKey(b) == None && TomlKey(c) == Some(key)
    ensures EditBody([b, c], map[key := value]) == [b, Assignment(key, value)]
  {
    hide TomlKey, Assignment, ContentLength, SortedKeys;
    var body, settings := [b, c], map[key := value];
    var out := [b, Assignment(key, value)];
    assert Rewrite(body, settings) == out;
    assert body[1] == c;
    SortedKeysOfOne(key);
    assert settings.Keys == {key};
    assert Missing(body, settings, [key]) == [];
    var n := ContentLength(out);
    assert out[..n] + [] + out[n..] == out;
  }

  lemma ReadThirdLine(see: Headers, a: string, b: string, c: string, s: string, t: string, key: string)
    requires see(a) == Some(s) && see(b) == Some(t) && see(c) == None && s != t && TomlKey(c) == Some(key)
    ensures ReadBy(see, [a, b, c], None, t, key) == Some(ValueText(c)) && Openings(see, [a, b, c], s) == 1
  {
    hide TomlKey, ValueText;
    assert [a, b, c][1..] == [b, c] && [b, c][1..] == [c] && [c][1..] == [];
    assert ReadBy(see, [c], Some(t), t, key) == Some(ValueText(c));
    assert ReadBy(see, [b, c], Some(s), t, key) == Some(ValueText(c));
    assert Openings(see, [], s) == 0;
    assert Openings(see, [c], s) == 0;
    assert Openings(see, [b, c], s) == 0;
  }

  /** An edit of `[s]` that changes a key of the table `[o]`, whose header carries a comment. */
  lemma CommentHidesHeader()
    ensures var lines := ["[s]", NOTED, Assignment("k", "u")];
            var lines' := EditLines(lines, "s", map["k" := "v"]);
      && Recognises(TableHeader, "s", "[s]") && Openings(TableHeader, lines, "[s]") == 1
      && !EditorAgrees(TableHeader, lines, "s", "[s]")
      && ReadBy(TableHeader, lines, None, "[o]", "k") == Some(Quote("u"))
      && ReadBy(TableHeader, lines', None, "[o]", "k") == Some(Quote("v"))
  {
    var section, table, other, key := "s", "[s]", "[o]", "k";
    PlainSection();
    NotedLine();
    BareLetter();
    hide *;
    var line, written, rewritten := NOTED, Assignment(key, "u"), Assignment(key, "v");
    GoodKeyIsReadBack(key, "u");
    GoodKeyIsReadBack(key, "v");
    AssignmentIsNoHeader(key, "u");
    AssignmentOpensNothing(TableHeader, section, table, key, "u");
    AssignmentOpensNothing(TableHeader, section, table, key, "v");
    EditSecondLine(table, line, written, section, key, "v");
    AgreesInSection(TableHeader, [table, line, written], section, table);
    OpensOne(TableHeader, [line, written]);
    ReadThirdLine(TableHeader, table, line, written, table, other, key);
    ReadThirdLine(TableHeader, table, line, rewritten, table, other, key);
  }

  lemma OpensOne(see: Headers, lines: seq<string>)
    requires lines != [] && see(lines[0]).Some?
    ensures !OpensNothing(see, lines)
  {
  }

  lemma BareLetter()
    ensures GoodKey("k") && "k"[0] != '[' && "[s]" != "[o]"
  {
    assert "[s]"[1] == 's' && "[o]"[1] == 'o';
  }
}
