/**
 * What an edited config says: reading it line by line, the section editor updates exactly the
 * keys it was given in exactly the section it was given, and a second edit changes nothing.
 */
module SectionReading {
  import opened Text
  import opened SectionEditor

  // ----- reading a config line by line

  /** The first value the lines give `key` under the header line `header`; `current` is the header in force. */
  function Read(lines: seq<string>, current: string, header: string, key: string): Option<string> {
    if lines == [] then None
    else if IsHeader(lines[0]) then Read(lines[1..], Trim(lines[0]), header, key)
    else if current == header && TomlKey(lines[0]) == Some(key) then Some(ValueText(lines[0]))
    else Read(lines[1..], current, header, key)
  }

  /** The header in force after the lines. */
  function HeaderAfter(lines: seq<string>, current: string): string {
    if lines == [] then current
    else HeaderAfter(lines[1..], if IsHeader(lines[0]) then Trim(lines[0]) else current)
  }

  /** The value of `key` in `section` of a config text. */
  function ReadText(text: string, section: string, key: string): Option<string> {
    Read(Lines(text), "", section, key)
  }

  predicate NoHeaders(lines: seq<string>) {
    forall i :: 0 <= i < |lines| ==> !IsHeader(lines[i])
  }

  function OrElse(first: Option<string>, second: Option<string>): Option<string> {
    if first.Some? then first else second
  }

  lemma {:induction false} ReadConcat(a: seq<string>, b: seq<string>, current: string, header: string, key: string)
    ensures Read(a + b, current, header, key) ==
            OrElse(Read(a, current, header, key), Read(b, HeaderAfter(a, current), header, key))
    ensures HeaderAfter(a + b, current) == HeaderAfter(b, HeaderAfter(a, current))
  {
    hide IsHeader, TomlKey, Trim, ValueText;
    if a == [] {
      assert a + b == b;
    } else {
      assert (a + b)[1..] == a[1..] + b;
      ReadConcat(a[1..], b, if IsHeader(a[0]) then Trim(a[0]) else current, header, key);
    }
  }

  /** Lines before the section's header say nothing about the section. */
  lemma {:induction false} ReadBeforeHeader(lines: seq<string>, current: string, header: string, key: string)
    requires current != header
    requires forall i :: 0 <= i < |lines| ==> Trim(lines[i]) != header
    ensures Read(lines, current, header, key) == None && HeaderAfter(lines, current) != header
  {
    hide IsHeader, TomlKey, Trim, ValueText;
    if lines != [] {
      ReadBeforeHeader(lines[1..], if IsHeader(lines[0]) then Trim(lines[0]) else current, header, key);
    }
  }

  lemma {:induction false} ReadBody(body: seq<string>, current: string, header: string, key: string)
    requires NoHeaders(body)
    ensures HeaderAfter(body, current) == current
    ensures current != header ==> Read(body, current, header, key) == None
    ensures current == header ==> (Read(body, current, header, key).Some? <==> Seen(body, key))
  {
    hide IsHeader, TomlKey, Trim, ValueText;
    if body != [] {
      ReadBody(body[1..], current, header, key);
      SeenConcat([body[0]], body[1..], key);
      assert [body[0]] + body[1..] == body;
      assert [body[0]][0] == body[0];
    }
  }

  lemma SeenConcat(a: seq<string>, b: seq<string>, key: string)
    ensures Seen(a + b, key) <==> Seen(a, key) || Seen(b, key)
  {
    hide TomlKey;
    if Seen(a, key) {
      var i :| 0 <= i < |a| && TomlKey(a[i]) == Some(key);
      assert (a + b)[i] == a[i];
    }
    if Seen(b, key) {
      var i :| 0 <= i < |b| && TomlKey(b[i]) == Some(key);
      assert (a + b)[|a| + i] == b[i];
    }
  }

  // ----- one line, one body

  predicate GoodKeys(settings: map<string, string>) {
    forall k :: k in settings ==> GoodKey(k)
  }

  /** A generated assignment is one nonblank line and never a header. */
  lemma AssignmentIsNoHeader(key: string, value: string)
    requires GoodKey(key)
    ensures !IsHeader(Assignment(key, value)) && !Blank(Assignment(key, value)) && OneLine(Assignment(key, value))
  {
    NotBlank();
    hide EscapeAll, IsSpace;
    TrimOfTrimmed(Assignment(key, value));
  }

  /** What rewriting does to one line of the section. */
  lemma RewrittenLine(line: string, settings: map<string, string>)
    requires GoodKeys(settings) && !IsHeader(line)
    ensures var r := RewriteLine(line, settings);
      && !IsHeader(r) && TomlKey(r) == TomlKey(line) && RewriteLine(r, settings) == r
      && (OneLine(line) ==> OneLine(r))
      && (TomlKey(line).Some? ==>
           ValueText(r) == var k := TomlKey(line).value; if k in settings then Quote(settings[k]) else ValueText(line))
  {
    hide TomlKey, IsHeader, Assignment, ValueText, Blank, OneLine, GoodKey;
    var key := TomlKey(line);
    if key.Some? && key.value in settings {
      GoodKeyIsReadBack(key.value, settings[key.value]);
      AssignmentIsNoHeader(key.value, settings[key.value]);
    }
  }

  function Wanted(settings: map<string, string>, key: string): Option<string> {
    if key in settings then Some(Quote(settings[key])) else None
  }

  lemma ReadCons(line: string, lines: seq<string>, header: string, key: string)
    requires !IsHeader(line)
    ensures Read([line] + lines, header, header, key) ==
            if TomlKey(line) == Some(key) then Some(ValueText(line)) else Read(lines, header, header, key)
  {
    hide TomlKey, IsHeader, ValueText, Trim;
    assert ([line] + lines)[1..] == lines;
  }

  lemma SeenCons(line: string, lines: seq<string>, key: string)
    ensures Seen([line] + lines, key) <==> TomlKey(line) == Some(key) || Seen(lines, key)
  {
    hide TomlKey;
    SeenConcat([line], lines, key);
    assert [line][0] == line;
  }

  lemma {:induction false} ReadRewritten(body: seq<string>, settings: map<string, string>, header: string, key: string)
    requires GoodKeys(settings) && NoHeaders(body)
    ensures NoHeaders(Rewrite(body, settings))
    ensures Read(Rewrite(body, settings), header, header, key) ==
            if Seen(body, key) && key in settings then Wanted(settings, key) else Read(body, header, header, key)
  {
    hide TomlKey, IsHeader, Assignment, ValueText, GoodKey, RewriteLine, Quote, Seen;
    if body == [] {
      NothingSeen(key);
    } else {
      hide Read;
      var line, rest := body[0], body[1..];
      RewrittenLine(line, settings);
      ReadRewritten(rest, settings, header, key);
      assert Rewrite(body, settings) == [RewriteLine(line, settings)] + Rewrite(rest, settings);
      assert [line] + rest == body;
      SeenCons(line, rest, key);
      ReadCons(line, rest, header, key);
      ReadCons(RewriteLine(line, settings), Rewrite(rest, settings), header, key);
    }
  }

  lemma NothingSeen(key: string)
    ensures !Seen([], key)
  {
  }

  lemma {:induction false} ReadMissing(body: seq<string>, settings: map<string, string>, ks: seq<string>, header: string, key: string)
    requires GoodKeys(settings) && forall k :: k in ks ==> k in settings
    ensures NoHeaders(Missing(body, settings, ks))
    ensures Read(Missing(body, settings, ks), header, header, key) ==
            if key in ks && !Seen(body, key) then Wanted(settings, key) else None
  {
    hide TomlKey, IsHeader, Assignment, ValueText, GoodKey, Quote, Seen;
    if ks != [] {
      ReadMissing(body, settings, ks[1..], header, key);
      GoodKeyIsReadBack(ks[0], settings[ks[0]]);
      AssignmentIsNoHeader(ks[0], settings[ks[0]]);
    }
  }

  lemma NoHeadersConcat(a: seq<string>, b: seq<string>)
    requires NoHeaders(a) && NoHeaders(b)
    ensures NoHeaders(a + b)
  {
    hide IsHeader;
  }

  /** The edited body gives every wanted key its new value and every other key its old one. */
  lemma EditedBodyReads(body: seq<string>, settings: map<string, string>, header: string, key: string)
    requires GoodKeys(settings) && NoHeaders(body)
    ensures NoHeaders(EditBody(body, settings))
    ensures Read(EditBody(body, settings), header, header, key) ==
            if key in settings then Wanted(settings, key) else Read(body, header, header, key)
  {
    hide TomlKey, IsHeader, Assignment, ValueText, GoodKey, Quote, Seen, Rewrite, Missing, Read, HeaderAfter, ContentLength;
    var r := Rewrite(body, settings);
    var n := ContentLength(r);
    var ks := SortedKeys(settings.Keys);
    var m := Missing(body, settings, ks);
    ReadRewritten(body, settings, header, key);
    ReadMissing(body, settings, ks, header, key);
    assert r[..n] + r[n..] == r;
    ReadConcat(r[..n], r[n..], header, header, key);
    ReadConcat(r[..n] + m, r[n..], header, header, key);
    ReadConcat(r[..n], m, header, header, key);
    NoHeadersConcat(r[..n], m);
    NoHeadersConcat(r[..n] + m, r[n..]);
    ReadBody(r[..n], header, header, key);
    ReadBody(r[n..], header, header, key);
    ReadBody(m, header, header, key);
    ReadBody(body, header, header, key);
  }

  // ----- the whole text

  lemma HeaderIsHeader(section: string)
    ensures Trim(Header(section)) == Header(section) && IsHeader(Header(section)) && !Blank(Header(section))
  {
    TrimOfTrimmed(Header(section));
  }

  lemma SectionParts(lines: seq<string>, start: nat)
    requires start < |lines|
    ensures lines == lines[..start + 1] + SectionBody(lines, start) + SectionRest(lines, start)
    ensures NoHeaders(SectionBody(lines, start))
    ensures SectionRest(lines, start) != [] ==> IsHeader(SectionRest(lines, start)[0])
  {
    hide IsHeader;
  }

  lemma {:induction false} ReadAssignments(settings: map<string, string>, ks: seq<string>, header: string, key: string)
    requires GoodKeys(settings) && forall k :: k in ks ==> k in settings
    ensures NoHeaders(Assignments(settings, ks))
    ensures Read(Assignments(settings, ks), header, header, key) == if key in ks then Wanted(settings, key) else None
  {
    hide TomlKey, IsHeader, Assignment, ValueText, GoodKey, Quote;
    var lines := Assignments(settings, ks);
    if ks != [] {
      ReadAssignments(settings, ks[1..], header, key);
      GoodKeyIsReadBack(ks[0], settings[ks[0]]);
      AssignmentIsNoHeader(ks[0], settings[ks[0]]);
      AssignmentsCons(settings, ks);
      hide Assignments;
      assert lines[0] == Assignment(ks[0], settings[ks[0]]) && lines[1..] == Assignments(settings, ks[1..]);
    }
  }

  lemma AssignmentsCons(settings: map<string, string>, ks: seq<string>)
    requires ks != [] && forall k :: k in ks ==> k in settings
    ensures Assignments(settings, ks) == [Assignment(ks[0], settings[ks[0]])] + Assignments(settings, ks[1..])
  {
    hide Assignment;
  }

  /** The appended section gives the wanted keys their values and says nothing about other sections. */
  lemma NewSectionReads(lines: seq<string>, section: string, settings: map<string, string>, current: string, header: string, key: string)
    requires GoodKeys(settings)
    ensures Read(NewSection(lines, section, settings), current, header, key) ==
            if header == Header(section) then (if key in settings then Wanted(settings, key) else None) else None
  {
    hide IsHeader, TomlKey, Trim, Assignment, ValueText, Quote, GoodKey;
    var ks := SortedKeys(settings.Keys);
    var tables := SectionLines(section, settings);
    BlankLineReads();
    HeaderIsHeader(section);
    ReadAssignments(settings, ks, Header(section), key);
    ReadBody(Assignments(settings, ks), Header(section), header, key);
    ReadConcat(Gap(lines), tables, current, header, key);
    assert tables[1..] == Assignments(settings, ks);
  }

  lemma BlankLineReads()
    ensures !IsHeader("") && TomlKey("") == None && Blank("")
  {
  }

  /** Reading a config whose section's body is replaced. */
  lemma ReplacedBodyReads(before: seq<string>, body: seq<string>, body': seq<string>, rest: seq<string>,
                          current: string, header: string, key: string)
    requires NoHeaders(body) && NoHeaders(body')
    ensures HeaderAfter(before, current) != header ==>
              Read(before + body' + rest, current, header, key) == Read(before + body + rest, current, header, key)
    ensures HeaderAfter(before, current) == header && Read(before, current, header, key) == None ==>
              Read(before + body' + rest, current, header, key) ==
              OrElse(Read(body', header, header, key), Read(rest, header, header, key))
  {
    hide IsHeader, TomlKey, Trim, ValueText, Read, HeaderAfter;
    var h := HeaderAfter(before, current);
    ReadBody(body, h, header, key);
    ReadBody(body', h, header, key);
    ReadConcat(before + body, rest, current, header, key);
    ReadConcat(before, body, current, header, key);
    ReadConcat(before + body', rest, current, header, key);
    ReadConcat(before, body', current, header, key);
  }

  lemma ReadThroughHeader(before: seq<string>, line: string, current: string, header: string, key: string)
    requires IsHeader(line)
    ensures HeaderAfter(before + [line], current) == Trim(line)
    ensures Read(before + [line], current, header, key) == Read(before, current, header, key)
  {
    hide IsHeader, TomlKey, Trim, ValueText;
    ReadConcat(before, [line], current, header, key);
  }

  /**
   * The edit refines a map update: the wanted keys of the edited section read as the new values and
   * every other key of every section reads as before, whether the section was there or not.
   */
  lemma EditIsMapUpdate(lines: seq<string>, section: string, settings: map<string, string>, header: string, key: string)
    requires GoodKeys(settings)
    ensures Read(EditLines(lines, section, settings), "", header, key) ==
            if header == Header(section) && key in settings then Wanted(settings, key) else Read(lines, "", header, key)
  {
    hide IsHeader, TomlKey, Trim, ValueText, Read, HeaderAfter, NewSection, EditBody, SectionBody, SectionRest;
    var h := Header(section);
    var start := HeaderAt(lines, h);
    HeaderIsHeader(section);
    ReadBeforeHeader(lines[..start], "", h, key);
    if start == |lines| {
      assert lines[..start] == lines;
      ReadConcat(lines, NewSection(lines, section, settings), "", header, key);
      NewSectionReads(lines, section, settings, HeaderAfter(lines, ""), header, key);
    } else {
      var before, body, rest := lines[..start + 1], SectionBody(lines, start), SectionRest(lines, start);
      SectionParts(lines, start);
      HeaderLine(lines[start], section);
      assert before == lines[..start] + [lines[start]];
      ReadThroughHeader(lines[..start], lines[start], "", header, key);
      ReadThroughHeader(lines[..start], lines[start], "", h, key);
      EditedBodyReads(body, settings, h, key);
      ReplacedBodyReads(before, body, EditBody(body, settings), rest, "", header, key);
      ReplacedBodyReads(before, body, body, rest, "", header, key);
    }
  }

  lemma HeaderLine(line: string, section: string)
    requires Trim(line) == Header(section)
    ensures IsHeader(line)
  {
  }

  // ----- editing twice

  lemma {:induction false} MissingAllFixed(body: seq<string>, settings: map<string, string>, ks: seq<string>)
    requires GoodKeys(settings) && forall k :: k in ks ==> k in settings
    ensures forall i :: 0 <= i < |Missing(body, settings, ks)| ==>
              RewriteLine(Missing(body, settings, ks)[i], settings) == Missing(body, settings, ks)[i]
    ensures forall k :: k in ks && !Seen(body, k) ==> Seen(Missing(body, settings, ks), k)
  {
    hide TomlKey, Assignment, GoodKey;
    if ks != [] {
      MissingAllFixed(body, settings, ks[1..]);
      GoodKeyIsReadBack(ks[0], settings[ks[0]]);
      var m, rest := Missing(body, settings, ks), Missing(body, settings, ks[1..]);
      if !Seen(body, ks[0]) {
        assert TomlKey(m[0]) == Some(ks[0]);
        forall k | k in ks && !Seen(body, k) ensures Seen(m, k) {
          SeenConcat([m[0]], rest, k);
          assert [m[0]][0] == m[0];
        }
      }
    }
  }

  lemma SeenRewritten(body: seq<string>, settings: map<string, string>, key: string)
    requires GoodKeys(settings) && NoHeaders(body)
    ensures Seen(Rewrite(body, settings), key) <==> Seen(body, key)
  {
    hide TomlKey, IsHeader, RewriteLine, GoodKey;
    forall i | 0 <= i < |body| ensures TomlKey(Rewrite(body, settings)[i]) == TomlKey(body[i]) {
      RewrittenLine(body[i], settings);
    }
  }

  /** A body that already makes every wanted assignment, and no other assignment of a wanted key. */
  predicate Fixed(body: seq<string>, settings: map<string, string>) {
    && (forall i :: 0 <= i < |body| ==> RewriteLine(body[i], settings) == body[i])
    && (forall k :: k in settings ==> Seen(body, k))
  }

  lemma FixedBodyStays(body: seq<string>, settings: map<string, string>)
    requires Fixed(body, settings)
    ensures EditBody(body, settings) == body
  {
    hide RewriteLine, Seen, ContentLength;
    var n := ContentLength(body);
    assert Rewrite(body, settings) == body;
    assert Missing(body, settings, SortedKeys(settings.Keys)) == [];
    assert body[..n] + [] + body[n..] == body;
  }

  /** An edited body is fixed. */
  lemma InsertionIsFixed(r: seq<string>, n: nat, m: seq<string>, settings: map<string, string>)
    requires n <= |r|
    requires forall i :: 0 <= i < |r| ==> RewriteLine(r[i], settings) == r[i]
    requires forall i :: 0 <= i < |m| ==> RewriteLine(m[i], settings) == m[i]
    ensures var out := r[..n] + m + r[n..]; forall i :: 0 <= i < |out| ==> RewriteLine(out[i], settings) == out[i]
  {
    hide RewriteLine;
    var out := r[..n] + m + r[n..];
    forall i | 0 <= i < |out| ensures RewriteLine(out[i], settings) == out[i] {
      assert out[i] == if i < n then r[i] else if i < n + |m| then m[i - n] else r[i - |m|];
    }
  }

  lemma EditBodyIsFixed(body: seq<string>, settings: map<string, string>)
    requires GoodKeys(settings) && NoHeaders(body)
    ensures Fixed(EditBody(body, settings), settings)
  {
    hide TomlKey, IsHeader, RewriteLine, GoodKey, Seen, Missing, ContentLength;
    var r := Rewrite(body, settings);
    var n := ContentLength(r);
    var ks := SortedKeys(settings.Keys);
    var m := Missing(body, settings, ks);
    var out := EditBody(body, settings);
    MissingAllFixed(body, settings, ks);
    forall i | 0 <= i < |r| ensures RewriteLine(r[i], settings) == r[i] { RewrittenLine(body[i], settings); }
    assert out == r[..n] + m + r[n..];
    hide EditBody, Rewrite, SortedKeys;
    InsertionIsFixed(r, n, m, settings);
    forall k | k in ks ensures Seen(out, k) {
      SeenRewritten(body, settings, k);
      assert r[..n] + r[n..] == r;
      SeenConcat(r[..n], r[n..], k);
      SeenConcat(r[..n], m, k);
      SeenConcat(r[..n] + m, r[n..], k);
    }
  }

  lemma {:induction false} HeaderAtConcat(a: seq<string>, line: string, b: seq<string>, header: string)
    requires forall i :: 0 <= i < |a| ==> Trim(a[i]) != header
    requires Trim(line) == header
    ensures HeaderAt(a + [line] + b, header) == |a|
  {
    hide Trim;
    if a != [] {
      HeaderAtConcat(a[1..], line, b, header);
      assert (a + [line] + b)[1..] == a[1..] + [line] + b;
    }
  }

  lemma {:induction false} BodyLengthConcat(body: seq<string>, rest: seq<string>)
    requires NoHeaders(body) && (rest == [] || IsHeader(rest[0]))
    ensures BodyLength(body + rest) == |body|
  {
    hide IsHeader;
    if body == [] {
      assert body + rest == rest;
    } else {
      BodyLengthConcat(body[1..], rest);
      assert (body + rest)[1..] == body[1..] + rest;
    }
  }

  /** Editing a text whose section is in place: only the body is edited. */
  lemma EditInPlace(before: seq<string>, line: string, body: seq<string>, rest: seq<string>, section: string, settings: map<string, string>)
    requires forall i :: 0 <= i < |before| ==> Trim(before[i]) != Header(section)
    requires Trim(line) == Header(section)
    requires NoHeaders(body) && (rest == [] || IsHeader(rest[0]))
    ensures EditLines(before + [line] + body + rest, section, settings) == before + [line] + EditBody(body, settings) + rest
  {
    hide Trim, IsHeader, EditBody, HeaderAt, BodyLength;
    var lines := before + [line] + body + rest;
    assert lines == before + [line] + (body + rest);
    HeaderAtConcat(before, line, body + rest, Header(section));
    var start := |before|;
    assert lines[..start + 1] == before + [line];
    assert lines[start + 1..] == body + rest;
    BodyLengthConcat(body, rest);
    assert SectionBody(lines, start) == body && SectionRest(lines, start) == rest;
  }

  /** The edited lines, cut at the section. */
  lemma EditedParts(lines: seq<string>, section: string, settings: map<string, string>)
    returns (before: seq<string>, line: string, body: seq<string>, rest: seq<string>)
    requires GoodKeys(settings)
    ensures EditLines(lines, section, settings) == before + [line] + body + rest
    ensures forall i :: 0 <= i < |before| ==> Trim(before[i]) != Header(section)
    ensures Trim(line) == Header(section) && NoHeaders(body) && (rest == [] || IsHeader(rest[0]))
    ensures Fixed(body, settings)
  {
    hide Trim, IsHeader, EditBody, Fixed, SectionBody, SectionRest, NewSection;
    var start := HeaderAt(lines, Header(section));
    if start == |lines| {
      before, line, body := NewSectionParts(lines, section, settings);
      rest := [];
    } else {
      SectionParts(lines, start);
      before, line, rest := lines[..start], lines[start], SectionRest(lines, start);
      EditBodyIsFixed(SectionBody(lines, start), settings);
      EditedBodyReads(SectionBody(lines, start), settings, "", "");
      body := EditBody(SectionBody(lines, start), settings);
      assert lines[..start + 1] == before + [line];
    }
  }

  lemma NewSectionParts(lines: seq<string>, section: string, settings: map<string, string>)
    returns (before: seq<string>, line: string, body: seq<string>)
    requires GoodKeys(settings) && forall i :: 0 <= i < |lines| ==> Trim(lines[i]) != Header(section)
    ensures lines + NewSection(lines, section, settings) == before + [line] + body
    ensures forall i :: 0 <= i < |before| ==> Trim(before[i]) != Header(section)
    ensures Trim(line) == Header(section) && NoHeaders(body) && Fixed(body, settings)
  {
    hide Trim, IsHeader, EditBody, Assignment, Fixed, Header, Assignments, SortedKeys, Blank;
    BlankLineReads();
    HeaderIsHeader(section);
    before, line := lines + Gap(lines), Header(section);
    body := Assignments(settings, SortedKeys(settings.Keys));
    assert lines + (Gap(lines) + ([line] + body)) == before + [line] + body;
    ReadAssignments(settings, SortedKeys(settings.Keys), "", "");
    AssignmentsAreFixed(settings);
  }

  /** The assignments of a new section are what the editor makes of an empty one. */
  lemma AssignmentsAreFixed(settings: map<string, string>)
    requires GoodKeys(settings)
    ensures Fixed(Assignments(settings, SortedKeys(settings.Keys)), settings)
  {
    hide Assignment, TomlKey, Seen, RewriteLine, Missing, Blank, GoodKey, SortedKeys, Fixed;
    var ks := SortedKeys(settings.Keys);
    EditBodyIsFixed([], settings);
    AllMissing(settings, ks);
    assert EditBody([], settings) == Missing([], settings, ks);
  }

  lemma {:induction false} AllMissing(settings: map<string, string>, ks: seq<string>)
    requires forall k :: k in ks ==> k in settings
    ensures Missing([], settings, ks) == Assignments(settings, ks)
  {
    hide Assignment, TomlKey;
    if ks != [] {
      AllMissing(settings, ks[1..]);
    }
  }

  lemma EditLinesTwice(lines: seq<string>, section: string, settings: map<string, string>)
    requires GoodKeys(settings)
    ensures EditLines(EditLines(lines, section, settings), section, settings) == EditLines(lines, section, settings)
  {
    hide Trim, IsHeader, EditBody, EditLines, Fixed;
    var before, line, body, rest := EditedParts(lines, section, settings);
    FixedBodyStays(body, settings);
    EditInPlace(before, line, body, rest, section, settings);
  }

  // ----- from lines to text and back

  /** A line that is not cut short when the text's final line breaks are trimmed. */
  predicate EndsWell(line: string) {
    line != "" && line[|line| - 1] != '\n'
  }

  lemma {:induction false} JoinEndsWell(lines: seq<string>)
    requires lines != [] && EndsWell(lines[|lines| - 1])
    ensures EndsWell(Join(lines))
  {
    if |lines| > 1 {
      JoinEndsWell(lines[1..]);
    }
  }

  lemma {:induction false} SplitEndsWell(s: string)
    requires EndsWell(s)
    ensures EndsWell(Split(s)[|Split(s)| - 1])
  {
    if |s| > 1 {
      SplitEndsWell(s[1..]);
    } else {
      assert s == [s[0]];
    }
  }

  predicate AllOneLine(lines: seq<string>) {
    forall i :: 0 <= i < |lines| ==> OneLine(lines[i])
  }

  /** The lines of a text: nothing, one empty line, or lines the last of which is not empty. */
  lemma LinesEndWell(text: string)
    ensures AllOneLine(Lines(text)) && EndWell(Lines(text))
  {
    if TrimNewlines(text) != "" {
      SplitEndsWell(TrimNewlines(text));
    }
  }

  lemma AssignmentEndsWell(key: string, value: string)
    ensures EndsWell(Assignment(key, value))
  {
  }

  lemma RewrittenEndsWell(line: string, settings: map<string, string>)
    requires EndsWell(line)
    ensures EndsWell(RewriteLine(line, settings))
  {
    hide TomlKey, Assignment;
    var key := TomlKey(line);
    if key.Some? && key.value in settings {
      AssignmentEndsWell(key.value, settings[key.value]);
    }
  }

  lemma BlankOrEnds(line: string)
    requires OneLine(line) && !Blank(line)
    ensures EndsWell(line)
  {
  }

  lemma MissingEndsWell(body: seq<string>, settings: map<string, string>, ks: seq<string>)
    requires forall k :: k in ks ==> k in settings
    ensures var m := Missing(body, settings, ks); m != [] ==> EndsWell(m[|m| - 1])
  {
    hide Assignment, Seen;
    var m := Missing(body, settings, ks);
    if m != [] {
      assert m[|m| - 1] in m;
      var k :| k in ks && m[|m| - 1] == Assignment(k, settings[k]);
      AssignmentEndsWell(k, settings[k]);
    }
  }

  lemma EditBodyEndsWell(body: seq<string>, settings: map<string, string>)
    requires body != [] ==> EndsWell(body[|body| - 1])
    ensures var out := EditBody(body, settings); out != [] ==> EndsWell(out[|out| - 1])
  {
    hide RewriteLine, Missing, EndsWell, Blank, SortedKeys, ContentLength, Rewrite, EditBody;
    var r, m := Rewrite(body, settings), Missing(body, settings, SortedKeys(settings.Keys));
    MissingEndsWell(body, settings, SortedKeys(settings.Keys));
    if body != [] {
      RewrittenEndsWell(body[|body| - 1], settings);
    }
    EditBodyIs(body, settings);
    LastOfInsertion(r, ContentLength(r), m);
  }

  lemma EditBodyIs(body: seq<string>, settings: map<string, string>)
    ensures var r, m := Rewrite(body, settings), Missing(body, settings, SortedKeys(settings.Keys));
      && EditBody(body, settings) == r[..ContentLength(r)] + m + r[ContentLength(r)..]
      && (body != [] ==> r[|r| - 1] == RewriteLine(body[|body| - 1], settings))
  {
    hide RewriteLine, Missing, Blank, SortedKeys, ContentLength;
  }

  lemma LastOfInsertion(r: seq<string>, n: nat, m: seq<string>)
    requires n <= |r|
    ensures var out := r[..n] + m + r[n..];
      && (out == [] <==> r == [] && m == [])
      && (out != [] && n < |r| ==> out[|out| - 1] == r[|r| - 1])
      && (out != [] && n == |r| ==> out[|out| - 1] == if m != [] then m[|m| - 1] else r[|r| - 1])
  {
  }

  /** No line at all, one empty line, or lines the last of which is not empty. */
  predicate EndWell(lines: seq<string>) {
    lines == [] || lines == [""] || EndsWell(lines[|lines| - 1])
  }

  lemma NewSectionEndsWell(lines: seq<string>, section: string, settings: map<string, string>)
    ensures var out := NewSection(lines, section, settings); out != [] && EndsWell(out[|out| - 1])
  {
    hide Trim, EndsWell, Assignment, Header, Blank;
    HeaderEndsWell(section);
    var ks := SortedKeys(settings.Keys);
    if ks != [] {
      AssignmentEndsWell(ks[|ks| - 1], settings[ks[|ks| - 1]]);
    }
  }

  lemma EditedEndsWell(lines: seq<string>, section: string, settings: map<string, string>)
    requires AllOneLine(lines) && EndWell(lines)
    ensures var out := EditLines(lines, section, settings); out != [] && EndsWell(out[|out| - 1])
  {
    hide Trim, IsHeader, EditBody, EndsWell, NewSection, OneLine, SectionBody, SectionRest;
    HeaderIsHeader(section);
    NewSectionEndsWell(lines, section, settings);
    var start := HeaderAt(lines, Header(section));
    if start < |lines| {
      var body, rest := SectionBody(lines, start), SectionRest(lines, start);
      SectionParts(lines, start);
      BlankOrEnds(lines[start]);
      BlankLineReads();
      assert EndsWell(lines[|lines| - 1]);
      if rest == [] {
        EditBodyEndsWell(body, settings);
      }
    }
  }

  lemma HeaderEndsWell(section: string)
    ensures EndsWell(Header(section))
  {
  }

  lemma TrimFinalBreak(s: string)
    requires EndsWell(s)
    ensures TrimNewlines(s + "\n") == s
  {
    assert (s + "\n")[..|s|] == s;
    assert TrimNewlines(s) == s;
  }

  /** The final line break is trimmed and added back. */
  lemma EditedText(text: string, section: string, settings: map<string, string>)
    ensures TrimNewlines(Edited(text, section, settings)) + "\n" == Edited(text, section, settings)
    ensures Lines(Edited(text, section, settings)) == Split(Join(EditLines(Lines(text), section, settings)))
  {
    hide EditLines, Split, Join;
    LinesEndWell(text);
    EditedEndsWell(Lines(text), section, settings);
    var out := EditLines(Lines(text), section, settings);
    JoinEndsWell(out);
    TrimFinalBreak(Join(out));
    assert Lines(Edited(text, section, settings)) == Split(Join(out));
  }

  lemma EditBodyIsOneLine(body: seq<string>, settings: map<string, string>)
    requires GoodKeys(settings) && AllOneLine(body)
    ensures AllOneLine(EditBody(body, settings))
  {
    hide Assignment, TomlKey, Seen, ContentLength, GoodKey, OneLine, Missing;
    forall k | k in settings ensures OneLine(Assignment(k, settings[k])) { AssignmentIsNoHeader(k, settings[k]); }
    var m := Missing(body, settings, SortedKeys(settings.Keys));
    forall i | 0 <= i < |m| ensures OneLine(m[i]) { assert m[i] in m; }
  }

  lemma OneLineConcat(a: seq<string>, b: seq<string>)
    ensures AllOneLine(a + b) <==> AllOneLine(a) && AllOneLine(b)
  {
    hide OneLine;
    forall i | 0 <= i < |b| ensures (a + b)[|a| + i] == b[i] {}
    forall i | 0 <= i < |a| ensures (a + b)[i] == a[i] {}
  }

  lemma HeaderIsOneLine(section: string)
    requires OneLine(section)
    ensures OneLine(Header(section))
  {
  }

  lemma BlankIsOneLine()
    ensures OneLine("")
  {
  }

  lemma EditedIsOneLine(lines: seq<string>, section: string, settings: map<string, string>)
    requires GoodKeys(settings) && OneLine(section) && AllOneLine(lines)
    ensures AllOneLine(EditLines(lines, section, settings))
  {
    hide Trim, IsHeader, Assignment, HeaderAt, BodyLength, EditBody, GoodKey, OneLine;
    var start := HeaderAt(lines, Header(section));
    if start < |lines| {
      SectionParts(lines, start);
      var before, body, rest := lines[..start + 1], SectionBody(lines, start), SectionRest(lines, start);
      hide SectionBody, SectionRest;
      OneLineConcat(before + body, rest);
      OneLineConcat(before, body);
      EditBodyIsOneLine(body, settings);
      OneLineConcat(before + EditBody(body, settings), rest);
      OneLineConcat(before, EditBody(body, settings));
    } else {
      HeaderIsOneLine(section);
      BlankIsOneLine();
      forall k | k in settings ensures OneLine(Assignment(k, settings[k])) { AssignmentIsNoHeader(k, settings[k]); }
    }
  }

  /**
   * Reading the edited text: every wanted key of the section has its new value and every other key
   * of every section reads as before.
   */
  lemma EditedTextIsMapUpdate(text: string, section: string, settings: map<string, string>, header: string, key: string)
    requires GoodKeys(settings) && OneLine(section)
    ensures ReadText(Edited(text, section, settings), header, key) ==
            if header == Header(section) && key in settings then Some(Quote(settings[key])) else ReadText(text, header, key)
  {
    hide EditLines, Split, Join, Read, Quote, GoodKey, Lines, Edited;
    var out := EditLines(Lines(text), section, settings);
    LinesEndWell(text);
    EditedText(text, section, settings);
    EditedEndsWell(Lines(text), section, settings);
    EditedIsOneLine(Lines(text), section, settings);
    SplitOfJoin(out);
    EditIsMapUpdate(Lines(text), section, settings, header, key);
  }

  lemma EditedTwice(text: string, section: string, settings: map<string, string>)
    requires GoodKeys(settings) && OneLine(section)
    ensures Edited(Edited(text, section, settings), section, settings) == Edited(text, section, settings)
  {
    hide EditLines, Split, Join, GoodKey, Lines;
    var out := EditLines(Lines(text), section, settings);
    LinesEndWell(text);
    EditedText(text, section, settings);
    EditedEndsWell(Lines(text), section, settings);
    EditedIsOneLine(Lines(text), section, settings);
    SplitOfJoin(out);
    EditLinesTwice(Lines(text), section, settings);
  }

  // ----- keys the editor cannot recognise

  lemma {:induction false} BreaksOfJoin(lines: seq<string>)
    ensures Breaks(Join(lines)) >= |lines| - 1
    ensures lines != [] && (forall i :: 0 <= i < |lines| ==> OneLine(lines[i])) ==> Breaks(Join(lines)) == |lines| - 1
  {
    if |lines| == 1 {
      if OneLine(lines[0]) { OneLineHasNoBreaks(lines[0]); }
    } else if |lines| > 1 {
      BreaksOfJoin(lines[1..]);
      BreaksOfConcat(lines[0] + "\n", Join(lines[1..]));
      BreaksOfConcat(lines[0], "\n");
      assert Breaks("\n") == 1;
      if OneLine(lines[0]) { OneLineHasNoBreaks(lines[0]); }
    }
  }

  /** A key the editor cannot recognise is added once more on every run. */
  lemma BadKeyGrowsText(lines: seq<string>, section: string, settings: map<string, string>, bad: string)
    requires bad in settings && !GoodKey(bad)
    requires forall i :: 0 <= i < |lines| ==> OneLine(lines[i])
    ensures |EditLines(lines, section, settings)| > |lines|
  {
    hide Trim, IsHeader, Assignment, TomlKey, HeaderAt, BodyLength, ContentLength, GoodKey;
    var start := HeaderAt(lines, Header(section));
    if start < |lines| {
      SectionParts(lines, start);
      var body := SectionBody(lines, start);
      if Seen(body, bad) {
        var i :| 0 <= i < |body| && TomlKey(body[i]) == Some(bad);
        KeysReadAreGood(body[i]);
        assert false;
      }
    }
  }

  /**
   * The editor reaches a fixed point on its first run exactly when it can recognise every key it is
   * given; for any other key each run adds another line, whatever the text was.
   */
  lemma EditedTwiceIffGoodKeys(text: string, section: string, settings: map<string, string>)
    requires OneLine(section)
    ensures Edited(Edited(text, section, settings), section, settings) == Edited(text, section, settings) <==> GoodKeys(settings)
  {
    hide EditLines, Split, Join, GoodKey, TrimNewlines;
    if GoodKeys(settings) {
      EditedTwice(text, section, settings);
    } else {
      var bad :| bad in settings && !GoodKey(bad);
      var t := Edited(text, section, settings);
      var lines := Lines(t);
      EditedText(text, section, settings);
      LinesEndWell(t);
      JoinOfSplit(TrimNewlines(t));
      BadKeyGrowsText(lines, section, settings, bad);
      BreaksOfJoin(lines);
      BreaksOfJoin(EditLines(lines, section, settings));
      BreaksOfConcat(Join(lines), "\n");
      BreaksOfConcat(Join(EditLines(lines, section, settings)), "\n");
    }
  }

  // ----- what survives

  /** A line of the section the editor rewrites. */
  predicate Owned(line: string, settings: map<string, string>) {
    TomlKey(line).Some? && TomlKey(line).value in settings
  }

  /** The lines of a body the editor does not own. */
  function Survivors(body: seq<string>, settings: map<string, string>): seq<string> {
    if body == [] then []
    else if Owned(body[0], settings) then Survivors(body[1..], settings)
    else [body[0]] + Survivors(body[1..], settings)
  }

  lemma {:induction false} KeptConcat(a: seq<string>, b: seq<string>, settings: map<string, string>)
    ensures Survivors(a + b, settings) == Survivors(a, settings) + Survivors(b, settings)
  {
    hide Owned, Survivors;
    SurvivorsNil(settings);
    if a == [] {
      assert a + b == b;
    } else {
      KeptConcat(a[1..], b, settings);
      SurvivorsCons(a[0], a[1..], settings);
      SurvivorsCons(a[0], a[1..] + b, settings);
      assert a == [a[0]] + a[1..] && a + b == [a[0]] + (a[1..] + b);
    }
  }

  lemma SurvivorsNil(settings: map<string, string>)
    ensures Survivors([], settings) == []
  {
  }

  lemma SurvivorsCons(line: string, rest: seq<string>, settings: map<string, string>)
    ensures Survivors([line] + rest, settings) == Survivors([line], settings) + Survivors(rest, settings)
  {
    hide Owned;
    SurvivorsNil(settings);
    assert ([line] + rest)[1..] == rest && [line][1..] == [];
  }

  lemma {:induction false} KeptRewritten(body: seq<string>, settings: map<string, string>)
    requires GoodKeys(settings) && NoHeaders(body)
    ensures Survivors(Rewrite(body, settings), settings) == Survivors(body, settings)
  {
    hide TomlKey, IsHeader, Assignment, GoodKey;
    if body != [] {
      RewrittenLine(body[0], settings);
      KeptRewritten(body[1..], settings);
      assert Rewrite(body, settings)[1..] == Rewrite(body[1..], settings);
    }
  }

  lemma {:induction false} NothingKeptOfMissing(body: seq<string>, settings: map<string, string>, ks: seq<string>)
    requires GoodKeys(settings) && forall k :: k in ks ==> k in settings
    ensures Survivors(Missing(body, settings, ks), settings) == []
  {
    hide TomlKey, Assignment, GoodKey, Seen;
    if ks != [] {
      NothingKeptOfMissing(body, settings, ks[1..]);
      GoodKeyIsReadBack(ks[0], settings[ks[0]]);
    }
  }

  lemma EditBodyKeeps(body: seq<string>, settings: map<string, string>)
    requires GoodKeys(settings) && NoHeaders(body)
    ensures Survivors(EditBody(body, settings), settings) == Survivors(body, settings)
  {
    hide TomlKey, IsHeader, GoodKey, Rewrite, Missing, ContentLength, Survivors;
    var r := Rewrite(body, settings);
    var n := ContentLength(r);
    var m := Missing(body, settings, SortedKeys(settings.Keys));
    KeptRewritten(body, settings);
    NothingKeptOfMissing(body, settings, SortedKeys(settings.Keys));
    KeptConcat(r[..n] + m, r[n..], settings);
    KeptConcat(r[..n], m, settings);
    KeptConcat(r[..n], r[n..], settings);
    assert r[..n] + r[n..] == r;
  }

  /**
   * Every line outside the section, and every line inside it whose key is not wanted, survives
   * verbatim and in order.
   */
  lemma SurvivorsVerbatim(lines: seq<string>, section: string, settings: map<string, string>)
    returns (before: seq<string>, body: seq<string>, body': seq<string>, rest: seq<string>)
    requires GoodKeys(settings) && HeaderAt(lines, Header(section)) < |lines|
    ensures lines == before + body + rest && EditLines(lines, section, settings) == before + body' + rest
    ensures before != [] && Trim(before[|before| - 1]) == Header(section)
    ensures forall i :: 0 <= i < |before| - 1 ==> Trim(before[i]) != Header(section)
    ensures NoHeaders(body) && NoHeaders(body') && (rest == [] || IsHeader(rest[0]))
    ensures Survivors(body', settings) == Survivors(body, settings)
  {
    hide Trim, IsHeader, EditBody, Survivors, GoodKey;
    var start := HeaderAt(lines, Header(section));
    SectionParts(lines, start);
    before, body, rest := lines[..start + 1], SectionBody(lines, start), SectionRest(lines, start);
    body' := EditBody(body, settings);
    EditedBodyReads(body, settings, "", "");
    EditBodyKeeps(body, settings);
  }
}
