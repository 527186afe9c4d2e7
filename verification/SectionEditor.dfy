/**
 * The line-preserving section editor of the Codex config (ensureCodexSection and its helpers):
 * it finds `[section]`, rewrites the assignments it owns, inserts the missing ones before the
 * section's blank tail, and appends the whole section when the header is absent.
 */
module SectionEditor {
  import opened Text

  // ----- keys and assignments

  /** Where the first '=' is, or |s|. */
  function IndexOfEquals(s: string): (i: nat)
    ensures i <= |s| && '=' !in s[..i] && (i < |s| ==> s[i] == '=')
  {
    if s == "" || s[0] == '=' then 0 else
      var j := IndexOfEquals(s[1..]);
      assert s[..1 + j] == [s[0]] + s[1..][..j];
      1 + j
  }

  /** tomlKey: the key a line assigns, if it assigns one. */
  function TomlKey(line: string): Option<string> {
    var trimmed := Trim(line);
    if trimmed == "" || trimmed[0] == '#' then None else
    var cut := IndexOfEquals(trimmed);
    if cut == |trimmed| then None else
    var key := Trim(trimmed[..cut]);
    if key == "" || ' ' in key || '\t' in key then None else Some(key)
  }

  /** What a line assigns: the text after its first '='. */
  function ValueText(line: string): string {
    var trimmed := Trim(line);
    var cut := IndexOfEquals(trimmed);
    if cut == |trimmed| then "" else Trim(trimmed[cut + 1..])
  }

  function HexDigit(n: nat): char
    requires n < 16
  {
    "0123456789abcdef"[n]
  }

  predicate IsControl(c: char) {
    c < ' ' || c == '\U{7F}'
  }

  /** How strconv.Quote writes one character. */
  function Escape(c: char): (e: string)
    ensures e != "" && OneLine(e)
  {
    if c == '\"' then "\\\""
    else if c == '\\' then "\\\\"
    else if !IsControl(c) then [c]
    else if c == '\U{07}' then "\\a"
    else if c == '\U{08}' then "\\b"
    else if c == '\U{0C}' then "\\f"
    else if c == '\n' then "\\n"
    else if c == '\r' then "\\r"
    else if c == '\t' then "\\t"
    else if c == '\U{0B}' then "\\v"
    else "\\x" + [HexDigit(c as nat / 16), HexDigit(c as nat % 16)]
  }

  function EscapeAll(s: string): (e: string)
    ensures OneLine(e)
  {
    if s == "" then "" else Escape(s[0]) + EscapeAll(s[1..])
  }

  /** strconv.Quote */
  function Quote(value: string): (q: string)
    ensures |q| >= 2 && q[0] == '\"' && q[|q| - 1] == '\"' && OneLine(q)
  {
    "\"" + EscapeAll(value) + "\""
  }

  /** tomlAssignment */
  function Assignment(key: string, value: string): string {
    key + " = " + Quote(value)
  }

  /** The keys the editor can recognise on a line it wrote itself. */
  predicate GoodKey(key: string) {
    key != "" && Trimmed(key) && key[0] != '#' && forall c :: c in key ==> c != ' ' && c != '\t' && c != '=' && c != '\n'
  }

  lemma {:induction false} IndexOfEqualsAt(before: string, after: string)
    requires '=' !in before
    ensures IndexOfEquals(before + "=" + after) == |before|
  {
    var s := before + "=" + after;
    if before == "" {
    } else {
      IndexOfEqualsAt(before[1..], after);
      assert s[1..] == before[1..] + "=" + after;
    }
  }

  lemma TrimDropsTrailingBlank(key: string)
    requires Trimmed(key) && key != ""
    ensures Trim(key + " ") == key
  {
    assert TrimLeft(key + " ") == key + " ";
    assert (key + " ")[..|key|] == key;
    assert TrimRight(key + " ") == TrimRight(key);
  }

  /** A good key is read back off the assignment the editor writes for it, with the quoted value. */
  lemma GoodKeyIsReadBack(key: string, value: string)
    requires GoodKey(key)
    ensures TomlKey(Assignment(key, value)) == Some(key)
    ensures ValueText(Assignment(key, value)) == Quote(value)
  {
    hide Trim, IndexOfEquals, Quote;
    var line := Assignment(key, value);
    var before, after := key + " ", " " + Quote(value);
    AssignmentTrims(key, value);
    assert line == before + "=" + after;
    IndexOfEqualsAt(before, after);
    assert line[..|before|] == before && line[|before| + 1..] == after;
  }

  /** Trimming an assignment changes nothing; trimming its two sides leaves key and quoted value. */
  lemma AssignmentTrims(key: string, value: string)
    requires GoodKey(key)
    ensures Trim(Assignment(key, value)) == Assignment(key, value)
    ensures Trim(key + " ") == key && Trim(" " + Quote(value)) == Quote(value)
  {
    hide EscapeAll, IsSpace;
    NotBlank();
    TrimOfTrimmed(Assignment(key, value));
    TrimDropsTrailingBlank(key);
    TrimOfTrimmed(Quote(value));
    assert (" " + Quote(value))[1..] == Quote(value);
  }

  lemma NotBlank()
    ensures !IsSpace('\"') && IsSpace(' ')
  {
  }

  /** Any key the editor reads off one line of text is a good key. */
  lemma KeysReadAreGood(line: string)
    requires OneLine(line)
    ensures TomlKey(line).Some? ==> GoodKey(TomlKey(line).value)
  {
    if TomlKey(line).Some? {
      var trimmed := Trim(line);
      var before := trimmed[..IndexOfEquals(trimmed)];
      TrimCuts(line);
      TrimCuts(before);
      TrimRightCuts(before);
      assert TrimLeft(before) == before;
    }
  }

  // ----- the value, read as a TOML basic string

  /** The body and closing quote of a TOML v1.0.0 basic string, with the escapes Quote can write. */
  function ReadBasicString(s: string): Option<string> {
    if s == "" then None
    else if s[0] == '\"' then (if |s| == 1 then Some("") else None)
    else if s[0] == '\\' then
      if |s| < 2 || !BasicEscape(s[1]).Some? then None
      else Prepend(BasicEscape(s[1]).value, ReadBasicString(s[2..]))
    else if IsControl(s[0]) && s[0] != '\t' then None
    else Prepend(s[0], ReadBasicString(s[1..]))
  }

  function Prepend(c: char, rest: Option<string>): Option<string> {
    match rest
    case None => None
    case Some(s) => Some([c] + s)
  }

  function BasicEscape(c: char): Option<char> {
    match c
    case '\"' => Some('\"')
    case '\\' => Some('\\')
    case 'b' => Some('\U{08}')
    case 't' => Some('\t')
    case 'n' => Some('\n')
    case 'f' => Some('\U{0C}')
    case 'r' => Some('\r')
    case _ => None
  }

  /** Characters whose Go escape TOML v1.0.0 also has. */
  predicate TomlSafe(c: char) {
    !IsControl(c) || c in {'\U{08}', '\t', '\n', '\U{0C}', '\r'}
  }

  /**
   * A quoted value reads back as itself exactly when TOML has every escape Go writes for it; with
   * \a, \v or another control character the assignment is not a TOML string at all.
   */
  lemma {:induction false} QuotedValueReadsBack(value: string)
    ensures ReadBasicString(Quote(value)[1..]) == if forall c :: c in value ==> TomlSafe(c) then Some(value) else None
  {
    hide EscapeAll, ReadBasicString, TomlSafe;
    assert Quote(value)[1..] == EscapeAll(value) + "\"";
    EscapedReadsBack(value);
  }

  lemma {:induction false} EscapedReadsBack(value: string)
    ensures ReadBasicString(EscapeAll(value) + "\"") == if forall c :: c in value ==> TomlSafe(c) then Some(value) else None
  {
    hide Escape, TomlSafe, IsControl, ReadBasicString;
    if value == "" {
      ReadsClosingQuote();
      assert EscapeAll(value) + "\"" == "\"";
    } else {
      var c, rest := value[0], EscapeAll(value[1..]) + "\"";
      EscapedReadsBack(value[1..]);
      EscapeReadsBack(c, rest);
      assert EscapeAll(value) + "\"" == Escape(c) + rest;
      assert value == [c] + value[1..];
    }
  }

  lemma ReadsClosingQuote()
    ensures ReadBasicString("\"") == Some("")
  {
  }

  lemma EscapeReadsBack(c: char, rest: string)
    ensures ReadBasicString(Escape(c) + rest) == if TomlSafe(c) then Prepend(c, ReadBasicString(rest)) else None
  {
    var e := Escape(c);
    assert (e + rest)[|e|..] == rest;
    assert (e + rest)[0] == e[0];
    if |e| > 1 {
      assert (e + rest)[1] == e[1];
    }
  }

  // ----- sorted keys

  predicate IsLeast(k: string, keys: set<string>) {
    k in keys && forall x :: x in keys && x != k ==> Less(k, x)
  }

  lemma {:induction false} LeastExists(keys: set<string>)
    requires keys != {}
    ensures exists k :: IsLeast(k, keys)
  {
    var k :| k in keys;
    if keys == {k} {
      assert IsLeast(k, keys);
    } else {
      LeastExists(keys - {k});
      var m :| IsLeast(m, keys - {k});
      LessIsTotal(k, m);
      if Less(k, m) {
        forall x | x in keys && x != k && x != m ensures Less(k, x) { LessIsTransitive(k, m, x); }
        assert IsLeast(k, keys);
      } else {
        assert IsLeast(m, keys);
      }
    }
  }

  function Least(keys: set<string>): (k: string)
    requires keys != {}
    ensures IsLeast(k, keys)
  {
    LeastExists(keys);
    assert forall x, y | IsLeast(x, keys) && IsLeast(y, keys) :: x == y by {
      forall x, y | IsLeast(x, keys) && IsLeast(y, keys) ensures x == y { LessIsTotal(x, y); }
    }
    var k :| IsLeast(k, keys);
    k
  }

  /** sortedKeys: every key once, in byte order. */
  function SortedKeys(keys: set<string>): (ks: seq<string>)
    ensures forall k :: k in ks <==> k in keys
    ensures forall i, j :: 0 <= i < j < |ks| ==> Less(ks[i], ks[j])
  {
    if keys == {} then [] else
      var k := Least(keys);
      [k] + SortedKeys(keys - {k})
  }

  // ----- the edit, on lines

  /** A line the editor takes for a table header. */
  predicate IsHeader(line: string) {
    var t := Trim(line);
    t != "" && t[0] == '[' && t[|t| - 1] == ']'
  }

  /** The first line that reads as exactly this header, or |lines|. */
  function HeaderAt(lines: seq<string>, header: string): (i: nat)
    ensures i <= |lines| && (i < |lines| ==> Trim(lines[i]) == header)
    ensures forall j :: 0 <= j < i ==> Trim(lines[j]) != header
  {
    if lines == [] || Trim(lines[0]) == header then 0 else 1 + HeaderAt(lines[1..], header)
  }

  /** How many lines precede the first header. */
  function BodyLength(lines: seq<string>): (n: nat)
    ensures n <= |lines| && (n < |lines| ==> IsHeader(lines[n]))
    ensures forall j :: 0 <= j < n ==> !IsHeader(lines[j])
  {
    if lines == [] || IsHeader(lines[0]) then 0 else 1 + BodyLength(lines[1..])
  }

  function RewriteLine(line: string, settings: map<string, string>): string {
    var key := TomlKey(line);
    if key.Some? && key.value in settings then Assignment(key.value, settings[key.value]) else line
  }

  function Rewrite(body: seq<string>, settings: map<string, string>): (r: seq<string>)
    ensures |r| == |body|
    ensures forall i :: 0 <= i < |body| ==> r[i] == RewriteLine(body[i], settings)
  {
    seq(|body|, i requires 0 <= i < |body| => RewriteLine(body[i], settings))
  }

  predicate Seen(body: seq<string>, key: string) {
    exists i :: 0 <= i < |body| && TomlKey(body[i]) == Some(key)
  }

  /** The assignments of the keys in ks that the body does not make, in order. */
  function Missing(body: seq<string>, settings: map<string, string>, ks: seq<string>): (m: seq<string>)
    requires forall k :: k in ks ==> k in settings
    ensures forall l :: l in m ==> exists k :: k in ks && l == Assignment(k, settings[k])
    ensures m == [] <==> forall k :: k in ks ==> Seen(body, k)
  {
    if ks == [] then [] else
      var rest := Missing(body, settings, ks[1..]);
      if Seen(body, ks[0]) then rest else [Assignment(ks[0], settings[ks[0]])] + rest
  }

  predicate Blank(line: string) {
    Trim(line) == ""
  }

  /** The body without its blank tail. */
  function ContentLength(body: seq<string>): (n: nat)
    ensures n <= |body| && (n > 0 ==> !Blank(body[n - 1]))
    ensures forall i :: n <= i < |body| ==> Blank(body[i])
  {
    if body == [] || !Blank(body[|body| - 1]) then |body| else ContentLength(body[..|body| - 1])
  }

  function EditBody(body: seq<string>, settings: map<string, string>): seq<string> {
    var rewritten := Rewrite(body, settings);
    var n := ContentLength(rewritten);
    rewritten[..n] + Missing(body, settings, SortedKeys(settings.Keys)) + rewritten[n..]
  }

  function Assignments(settings: map<string, string>, ks: seq<string>): (r: seq<string>)
    requires forall k :: k in ks ==> k in settings
    ensures |r| == |ks| && forall i :: 0 <= i < |ks| ==> r[i] == Assignment(ks[i], settings[ks[i]])
  {
    seq(|ks|, i requires 0 <= i < |ks| => Assignment(ks[i], settings[ks[i]]))
  }

  function Header(section: string): string {
    "[" + section + "]"
  }

  /** The section as it is appended when no line is its header. */
  function NewSection(lines: seq<string>, section: string, settings: map<string, string>): seq<string> {
    Gap(lines) + SectionLines(section, settings)
  }

  /** The empty line that separates a new section from a last line that is not blank. */
  function Gap(lines: seq<string>): seq<string> {
    if lines != [] && !Blank(lines[|lines| - 1]) then [""] else []
  }

  function SectionLines(section: string, settings: map<string, string>): seq<string> {
    [Header(section)] + Assignments(settings, SortedKeys(settings.Keys))
  }

  /** The lines of the section whose header is line `start`, up to the next header. */
  function SectionBody(lines: seq<string>, start: nat): seq<string>
    requires start < |lines|
  {
    var after := lines[start + 1..];
    after[..BodyLength(after)]
  }

  /** The lines from the next header on. */
  function SectionRest(lines: seq<string>, start: nat): seq<string>
    requires start < |lines|
  {
    var after := lines[start + 1..];
    after[BodyLength(after)..]
  }

  function EditLines(lines: seq<string>, section: string, settings: map<string, string>): seq<string> {
    var start := HeaderAt(lines, Header(section));
    if start == |lines| then lines + NewSection(lines, section, settings)
    else lines[..start + 1] + EditBody(SectionBody(lines, start), settings) + SectionRest(lines, start)
  }

  function Lines(text: string): seq<string> {
    if text == "" then [] else Split(TrimNewlines(text))
  }

  /** The text the editor returns; EnsureSection below computes it with the source's loops. */
  function Edited(text: string, section: string, settings: map<string, string>): string {
    Join(EditLines(Lines(text), section, settings)) + "\n"
  }

  // ----- the editor

  /** ensureCodexSection */
  method EnsureSection(current: string, section: string, settings: map<string, string>) returns (next: string)
    ensures next == Edited(current, section, settings)
  {
    hide Trim, Split, TrimNewlines, Join, IsHeader, EditBody, NewSection, HeaderAt, BodyLength, Header;
    var header := Header(section);
    var lines := Split(TrimNewlines(current));
    if current == "" {
      lines := [];
    }
    var start := FindHeader(lines, header);
    var out;
    if start == |lines| {
      out := AppendSection(lines, section, settings);
    } else {
      var end := FindSectionEnd(lines, start);
      var body := EditSection(lines[start + 1..end], settings);
      out := lines[..start + 1] + body + lines[end..];
      assert SectionBody(lines, start) == lines[start + 1..end];
      assert SectionRest(lines, start) == lines[end..];
    }
    next := Join(out) + "\n";
  }

  /** The scan for the section's header; |lines| stands for the source's -1. */
  method FindHeader(lines: seq<string>, header: string) returns (start: nat)
    ensures start == HeaderAt(lines, header)
  {
    hide Trim;
    start := 0;
    while start < |lines| && Trim(lines[start]) != header
      invariant start <= |lines|
      invariant HeaderAt(lines, header) == start + HeaderAt(lines[start..], header)
    {
      assert lines[start..][1..] == lines[start + 1..];
      start := start + 1;
    }
  }

  /** The scan for the next header after line `start`. */
  method FindSectionEnd(lines: seq<string>, start: nat) returns (end: nat)
    requires start < |lines|
    ensures end == start + 1 + BodyLength(lines[start + 1..])
  {
    hide IsHeader;
    end := start + 1;
    while end < |lines| && !IsHeader(lines[end])
      invariant start + 1 <= end <= |lines|
      invariant BodyLength(lines[start + 1..]) == end - start - 1 + BodyLength(lines[end..])
    {
      assert lines[end..][1..] == lines[end + 1..];
      end := end + 1;
    }
  }

  /** The branch that appends the section: the lines, one blank line if needed, header and assignments. */
  method AppendSection(lines: seq<string>, section: string, settings: map<string, string>) returns (out: seq<string>)
    ensures out == lines + NewSection(lines, section, settings)
  {
    hide Blank, Assignment, Assignments, SortedKeys, Header;
    var ks := SortedKeys(settings.Keys);
    out := lines;
    if |out| > 0 && !Blank(out[|out| - 1]) {
      out := out + [""];
    }
    ghost var before := out + [Header(section)];
    assert before == lines + Gap(lines) + [Header(section)];
    out := out + [Header(section)];
    ghost var written: seq<string> := [];
    for i := 0 to |ks|
      invariant out == before + written && |written| == i
      invariant forall j :: 0 <= j < i ==> written[j] == Assignment(ks[j], settings[ks[j]])
    {
      var line := Assignment(ks[i], settings[ks[i]]);
      assert before + written + [line] == before + (written + [line]);
      out, written := out + [line], written + [line];
    }
    Appended(lines, section, settings, written);
  }

  lemma Appended(lines: seq<string>, section: string, settings: map<string, string>, written: seq<string>)
    requires var ks := SortedKeys(settings.Keys);
             |ks| == |written| && forall j :: 0 <= j < |ks| ==> ks[j] in settings && written[j] == Assignment(ks[j], settings[ks[j]])
    ensures lines + Gap(lines) + [Header(section)] + written == lines + NewSection(lines, section, settings)
  {
    hide Blank, Assignment, SortedKeys, Header, Gap;
    assert written == Assignments(settings, SortedKeys(settings.Keys));
    var tables := [Header(section)] + written;
    assert lines + Gap(lines) + [Header(section)] + written == lines + (Gap(lines) + tables);
  }

  /** The branch that edits the section: rewrite, find the blank tail, insert what is missing. */
  method EditSection(body: seq<string>, settings: map<string, string>) returns (out: seq<string>)
    ensures out == EditBody(body, settings)
  {
    hide Missing, Rewrite, ContentLength, SortedKeys, Seen;
    var rewritten, seen := RewriteBody(body, settings);
    var insertAt := FindBlankTail(rewritten);
    var missing := MissingAssignments(body, settings, SortedKeys(settings.Keys), seen);
    out := rewritten[..insertAt] + missing + rewritten[insertAt..];
  }

  /** The scan back over the blank lines at the end of the section. */
  method FindBlankTail(body: seq<string>) returns (insertAt: nat)
    ensures insertAt == ContentLength(body)
  {
    hide Blank, ContentLength;
    insertAt := |body|;
    assert body[..|body|] == body;
    while insertAt > 0 && Blank(body[insertAt - 1])
      invariant 0 <= insertAt <= |body|
      invariant ContentLength(body) == ContentLength(body[..insertAt])
    {
      ContentLengthUpTo(body, insertAt);
      insertAt := insertAt - 1;
    }
    ContentLengthUpTo(body, insertAt);
  }

  lemma ContentLengthUpTo(body: seq<string>, n: nat)
    requires n <= |body|
    ensures ContentLength(body[..n]) == if n > 0 && Blank(body[n - 1]) then ContentLength(body[..n - 1]) else n
  {
    hide Blank;
    assert n > 0 ==> body[..n][..n - 1] == body[..n - 1];
  }

  /** The loop over the section's lines: rewritten lines and the wanted keys met. */
  method RewriteBody(body: seq<string>, settings: map<string, string>) returns (out: seq<string>, seen: set<string>)
    ensures out == Rewrite(body, settings)
    ensures forall k :: k in seen <==> k in settings && Seen(body, k)
  {
    hide TomlKey, Assignment;
    out, seen := [], {};
    for i := 0 to |body|
      invariant out == Rewrite(body, settings)[..i]
      invariant forall k :: k in seen <==> k in settings && Seen(body[..i], k)
    {
      var key := TomlKey(body[i]);
      assert forall k :: Seen(body[..i + 1], k) <==> Seen(body[..i], k) || key == Some(k) by {
        forall k ensures Seen(body[..i + 1], k) <==> Seen(body[..i], k) || key == Some(k) {
          if Seen(body[..i], k) {
            var j :| 0 <= j < i && TomlKey(body[..i][j]) == Some(k);
            assert body[..i + 1][j] == body[j];
          }
          if key == Some(k) {
            assert body[..i + 1][i] == body[i];
          }
          if Seen(body[..i + 1], k) {
            var j :| 0 <= j < i + 1 && TomlKey(body[..i + 1][j]) == Some(k);
            if j < i {
              assert body[..i][j] == body[j];
            }
          }
        }
      }
      if key.Some? && key.value in settings {
        out := out + [Assignment(key.value, settings[key.value])];
        seen := seen + {key.value};
      } else {
        out := out + [body[i]];
      }
    }
    assert body[..|body|] == body;
  }

  /** The loop over the sorted keys that collects the ones not seen. */
  method MissingAssignments(body: seq<string>, settings: map<string, string>, ks: seq<string>, seen: set<string>)
    returns (missing: seq<string>)
    requires forall k :: k in ks ==> k in settings
    requires forall k :: k in seen <==> k in settings && Seen(body, k)
    ensures missing == Missing(body, settings, ks)
  {
    hide TomlKey, Assignment, Missing, Seen;
    missing := [];
    for i := 0 to |ks|
      invariant missing + Missing(body, settings, ks[i..]) == Missing(body, settings, ks)
    {
      MissingAt(body, settings, ks, i);
      if ks[i] !in seen {
        missing := missing + [Assignment(ks[i], settings[ks[i]])];
      }
    }
  }

  lemma MissingAt(body: seq<string>, settings: map<string, string>, ks: seq<string>, i: nat)
    requires i < |ks| && forall k :: k in ks ==> k in settings
    ensures Missing(body, settings, ks[i..]) ==
            (if Seen(body, ks[i]) then [] else [Assignment(ks[i], settings[ks[i]])]) + Missing(body, settings, ks[i + 1..])
  {
    hide Assignment, Seen;
    assert ks[i..][1..] == ks[i + 1..];
  }
}
