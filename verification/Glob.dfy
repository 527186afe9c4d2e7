/**
 * The merge gate's glob matcher: globMatch walks the bytes of a policy pattern, writes a regular
 * expression and runs it on a path. The text written is read back under the RE2 syntax it uses and
 * given RE2's meaning, and compared with a direct recursive matcher on characters.
 */
module Glob {
  import opened Text

  // ----- bytes

  predicate IsAsciiChar(c: char) {
    c as int < 0x80
  }

  predicate IsAscii(s: string) {
    forall c :: c in s ==> IsAsciiChar(c)
  }

  /** The UTF-8 encoding of a character, each byte b as the character U+00b that string(b) makes of it. */
  function Utf8(c: char): (bytes: string)
    ensures IsAsciiChar(c) ==> bytes == [c]
    ensures !IsAsciiChar(c) ==> |bytes| >= 2 && forall b :: b in bytes ==> !IsAsciiChar(b)
  {
    var n := c as int;
    if n < 0x80 then [c]
    else if n < 0x800 then [Byte(0xC0 + n / 0x40), Byte(0x80 + n % 0x40)]
    else if n < 0x10000 then [Byte(0xE0 + n / 0x1000), Byte(0x80 + n / 0x40 % 0x40), Byte(0x80 + n % 0x40)]
    else [Byte(0xF0 + n / 0x40000), Byte(0x80 + n / 0x1000 % 0x40), Byte(0x80 + n / 0x40 % 0x40), Byte(0x80 + n % 0x40)]
  }

  function Byte(n: int): (c: char)
    requires 0x80 <= n < 0x100
    ensures c as int == n
  {
    n as char
  }

  /** What indexing a pattern byte by byte yields. */
  function Bytes(s: string): string {
    if s == "" then "" else Utf8(s[0]) + Bytes(s[1..])
  }

  /** The matcher of the code: whether the expression written for the bytes of a pattern accepts a path. */
  predicate Accepts(pattern: string, path: string) {
    GlobMatches(Bytes(pattern), path, false)
  }

  // ----- the expression written

  /** The characters regexp.QuoteMeta escapes. */
  predicate IsMeta(c: char) {
    c in {'\\', '.', '+', '*', '?', '(', ')', '|', '[', ']', '{', '}', '^', '$'}
  }

  function QuoteMeta(c: char): string {
    if IsMeta(c) then ['\\', c] else [c]
  }

  predicate StartsDouble(pattern: string) {
    |pattern| >= 2 && pattern[0] == '*' && pattern[1] == '*'
  }

  /** The expression without its anchors. */
  function Body(pattern: string): string {
    if pattern == "" then ""
    else if StartsDouble(pattern) then ".*" + Body(pattern[2..])
    else if pattern[0] == '*' then "[^/]*" + Body(pattern[1..])
    else if pattern[0] == '?' then "[^/]" + Body(pattern[1..])
    else QuoteMeta(pattern[0]) + Body(pattern[1..])
  }

  // ----- reading it back

  /** One item of an expression: any run without a line break, a run within one directory, one such character, a literal. */
  datatype Item = AnyRun | SegmentRun | SegmentChar | Literal(c: char)

  /** The items of an unanchored expression up to the final '$', in the part of RE2's syntax in use. */
  function ReadItems(re: string): Option<seq<Item>> {
    if re == "" then None
    else if re == "$" then Some([])
    else if ".*" <= re then Then(AnyRun, ReadItems(re[2..]))
    else if "[^/]*" <= re then Then(SegmentRun, ReadItems(re[5..]))
    else if "[^/]" <= re then Then(SegmentChar, ReadItems(re[4..]))
    else if re[0] == '\\' then (if |re| >= 2 && IsMeta(re[1]) then Then(Literal(re[1]), ReadItems(re[2..])) else None)
    else if IsMeta(re[0]) then None
    else Then(Literal(re[0]), ReadItems(re[1..]))
  }

  function Then(item: Item, rest: Option<seq<Item>>): Option<seq<Item>> {
    if rest.Some? then Some([item] + rest.value) else None
  }

  function ReadRegex(re: string): Option<seq<Item>> {
    if re != "" && re[0] == '^' then ReadItems(re[1..]) else None
  }

  /** What the anchored items match: '.' stops at a line break, '[^/]' only at a slash. */
  predicate Matches(items: seq<Item>, s: string)
    decreases |items|
  {
    if items == [] then s == ""
    else match items[0]
      case AnyRun => exists i :: 0 <= i <= |s| && OneLine(s[..i]) && Matches(items[1..], s[i..])
      case SegmentRun => exists i :: 0 <= i <= |s| && '/' !in s[..i] && Matches(items[1..], s[i..])
      case SegmentChar => s != "" && s[0] != '/' && Matches(items[1..], s[1..])
      case Literal(c) => s != "" && s[0] == c && Matches(items[1..], s[1..])
  }

  /** regexp.MustCompile(re).MatchString(s) */
  predicate RegexMatches(re: string, s: string) {
    ReadRegex(re).Some? && Matches(ReadRegex(re).value, s)
  }

  // ----- the direct matcher

  /**
   * `**` spans directories, `*` and `?` stay within one, everything else is itself. `breaks` says
   * whether `**` may span a line break.
   */
  predicate GlobMatches(pattern: string, path: string, breaks: bool)
    decreases |pattern| + |path|
  {
    if pattern == "" then path == ""
    else if StartsDouble(pattern) then
      || GlobMatches(pattern[2..], path, breaks)
      || (path != "" && (breaks || path[0] != '\n') && GlobMatches(pattern, path[1..], breaks))
    else if pattern[0] == '*' then
      || GlobMatches(pattern[1..], path, breaks)
      || (path != "" && path[0] != '/' && GlobMatches(pattern, path[1..], breaks))
    else if pattern[0] == '?' then path != "" && path[0] != '/' && GlobMatches(pattern[1..], path[1..], breaks)
    else path != "" && path[0] == pattern[0] && GlobMatches(pattern[1..], path[1..], breaks)
  }

  /** The items of a pattern. */
  function Items(pattern: string): seq<Item> {
    if pattern == "" then []
    else if StartsDouble(pattern) then [AnyRun] + Items(pattern[2..])
    else if pattern[0] == '*' then [SegmentRun] + Items(pattern[1..])
    else if pattern[0] == '?' then [SegmentChar] + Items(pattern[1..])
    else [Literal(pattern[0])] + Items(pattern[1..])
  }

  // ----- writing and reading back

  /** No expression body starts with a star, so an item is never read as repeated by accident. */
  lemma BodyStarts(pattern: string)
    ensures Body(pattern) + "$" != "" && (Body(pattern) + "$")[0] != '*'
  {
  }

  /** The expression written for some bytes reads back as their items: every literal is escaped enough. */
  lemma {:induction false} ReadsBack(pattern: string)
    ensures ReadItems(Body(pattern) + "$") == Some(Items(pattern))
  {
    hide ReadItems, IsMeta;
    if pattern == "" {
      assert Body(pattern) + "$" == "$";
      ReadsEnd();
    } else if StartsDouble(pattern) {
      ReadsBack(pattern[2..]);
      ReadsAnyRun(Body(pattern[2..]) + "$");
      assert Body(pattern) + "$" == ".*" + (Body(pattern[2..]) + "$");
    } else {
      ReadsBack(pattern[1..]);
      BodyStarts(pattern[1..]);
      ReadsOne(pattern[0], Body(pattern[1..]) + "$");
      assert Body(pattern) + "$" == One(pattern[0]) + (Body(pattern[1..]) + "$");
    }
  }

  lemma ReadsEnd()
    ensures ReadItems("$") == Some([])
  {
  }

  lemma ReadsAnyRun(rest: string)
    ensures ReadItems(".*" + rest) == Then(AnyRun, ReadItems(rest))
  {
    assert (".*" + rest)[2..] == rest;
  }

  /** What one pattern character outside `**` writes. */
  function One(c: char): string {
    if c == '*' then "[^/]*" else if c == '?' then "[^/]" else QuoteMeta(c)
  }

  function OneItem(c: char): Item {
    if c == '*' then SegmentRun else if c == '?' then SegmentChar else Literal(c)
  }

  lemma ReadsOne(c: char, rest: string)
    requires rest != "" && rest[0] != '*'
    ensures ReadItems(One(c) + rest) == Then(OneItem(c), ReadItems(rest))
  {
    var re := One(c) + rest;
    assert re[|One(c)|..] == rest;
    if c == '*' {
      assert "[^/]*" <= re;
    } else if c == '?' {
      assert "[^/]" <= re;
      assert re[4] == rest[0];
      assert !("[^/]*" <= re) by { assert "[^/]*"[4] == '*'; }
    } else {
      assert re[0] == QuoteMeta(c)[0];
      assert "[^/]"[0] == '[' && "[^/]*"[0] == '[' && ".*"[0] == '.';
    }
  }

  // ----- matching

  lemma {:induction false} MatchesIsGlob(pattern: string, path: string)
    ensures Matches(Items(pattern), path) <==> GlobMatches(pattern, path, false)
    decreases |pattern| + |path|
  {
    if pattern == "" {
    } else if StartsDouble(pattern) {
      AnyRunUnfolds(Items(pattern[2..]), path);
      MatchesIsGlob(pattern[2..], path);
      if path != "" { MatchesIsGlob(pattern, path[1..]); }
    } else if pattern[0] == '*' {
      SegmentRunUnfolds(Items(pattern[1..]), path);
      MatchesIsGlob(pattern[1..], path);
      if path != "" { MatchesIsGlob(pattern, path[1..]); }
    } else if path != "" {
      MatchesIsGlob(pattern[1..], path[1..]);
    }
  }

  /** A run over the first i characters, none of them `stop`, before the rest matches. */
  predicate RunCut(rest: seq<Item>, stop: char, s: string, i: nat) {
    i <= |s| && stop !in s[..i] && Matches(rest, s[i..])
  }

  lemma RunCutAt(rest: seq<Item>, stop: char, s: string, i: nat)
    ensures RunCut(rest, stop, s, 0) <==> Matches(rest, s)
    ensures RunCut(rest, stop, s, i + 1) <==> s != "" && s[0] != stop && RunCut(rest, stop, s[1..], i)
  {
    hide Matches;
    assert s[..0] == "" && s[0..] == s;
    if i < |s| {
      assert s[..i + 1] == [s[0]] + s[1..][..i] && s[i + 1..] == s[1..][i..];
    }
  }

  lemma AnyRunMeans(rest: seq<Item>, s: string)
    ensures Matches([AnyRun] + rest, s) <==> exists i: nat :: RunCut(rest, '\n', s, i)
  {
    assert ([AnyRun] + rest)[1..] == rest && ([AnyRun] + rest)[0] == AnyRun;
    if Matches([AnyRun] + rest, s) {
      var i :| 0 <= i <= |s| && OneLine(s[..i]) && Matches(rest, s[i..]);
      assert RunCut(rest, '\n', s, i);
    }
    if i: nat :| RunCut(rest, '\n', s, i) {
      assert 0 <= i <= |s| && OneLine(s[..i]) && Matches(rest, s[i..]);
    }
  }

  lemma SegmentRunMeans(rest: seq<Item>, s: string)
    ensures Matches([SegmentRun] + rest, s) <==> exists i: nat :: RunCut(rest, '/', s, i)
  {
    assert ([SegmentRun] + rest)[1..] == rest && ([SegmentRun] + rest)[0] == SegmentRun;
    if Matches([SegmentRun] + rest, s) {
      var i :| 0 <= i <= |s| && '/' !in s[..i] && Matches(rest, s[i..]);
      assert RunCut(rest, '/', s, i);
    }
    if i: nat :| RunCut(rest, '/', s, i) {
      assert 0 <= i <= |s| && '/' !in s[..i] && Matches(rest, s[i..]);
    }
  }

  /** A run is empty, or takes one character and goes on. */
  lemma RunUnfolds(rest: seq<Item>, stop: char, s: string)
    ensures (exists i: nat :: RunCut(rest, stop, s, i)) <==>
            Matches(rest, s) || (s != "" && s[0] != stop && exists i: nat :: RunCut(rest, stop, s[1..], i))
  {
    hide Matches, RunCut;
    if i: nat :| RunCut(rest, stop, s, i) {
      RunCutAt(rest, stop, s, if i == 0 then 0 else i - 1);
    }
    RunCutAt(rest, stop, s, 0);
    if s != "" && s[0] != stop {
      if j: nat :| RunCut(rest, stop, s[1..], j) {
        RunCutAt(rest, stop, s, j);
      }
    }
  }

  lemma AnyRunUnfolds(rest: seq<Item>, s: string)
    ensures Matches([AnyRun] + rest, s) <==>
            Matches(rest, s) || (s != "" && s[0] != '\n' && Matches([AnyRun] + rest, s[1..]))
  {
    hide Matches, RunCut;
    AnyRunMeans(rest, s);
    RunUnfolds(rest, '\n', s);
    if s != "" {
      AnyRunMeans(rest, s[1..]);
    }
  }

  lemma SegmentRunUnfolds(rest: seq<Item>, s: string)
    ensures Matches([SegmentRun] + rest, s) <==>
            Matches(rest, s) || (s != "" && s[0] != '/' && Matches([SegmentRun] + rest, s[1..]))
  {
    hide Matches, RunCut;
    SegmentRunMeans(rest, s);
    RunUnfolds(rest, '/', s);
    if s != "" {
      SegmentRunMeans(rest, s[1..]);
    }
  }

  /** The expression written for some bytes accepts exactly the paths the direct matcher accepts for them. */
  lemma WrittenRegexIsGlob(pattern: string, path: string)
    ensures RegexMatches("^" + Body(pattern) + "$", path) <==> GlobMatches(pattern, path, false)
  {
    hide Matches, GlobMatches, ReadItems, Items, Body;
    ReadsBack(pattern);
    MatchesIsGlob(pattern, path);
    assert ("^" + Body(pattern) + "$")[1..] == Body(pattern) + "$";
  }

  /** On a path without line breaks `**` is any string. */
  lemma {:induction false} OneLinePathSpansAll(pattern: string, path: string)
    requires OneLine(path)
    ensures GlobMatches(pattern, path, false) <==> GlobMatches(pattern, path, true)
    decreases |pattern| + |path|
  {
    if pattern == "" {
    } else if StartsDouble(pattern) {
      OneLinePathSpansAll(pattern[2..], path);
      if path != "" { OneLinePathSpansAll(pattern, path[1..]); }
    } else if pattern[0] == '*' {
      OneLinePathSpansAll(pattern[1..], path);
      if path != "" { OneLinePathSpansAll(pattern, path[1..]); }
    } else if path != "" {
      OneLinePathSpansAll(pattern[1..], path[1..]);
    }
  }

  /** What `**` alone matches: everything, or what holds no line break. */
  lemma {:induction false} DoubleStarMatches(path: string, breaks: bool)
    ensures GlobMatches("**", path, breaks) <==> breaks || OneLine(path)
  {
    assert "**"[2..] == "";
    if path != "" {
      DoubleStarMatches(path[1..], breaks);
      assert path == [path[0]] + path[1..];
    }
  }

  /** A path on which the two readings of `**` agree for every pattern is exactly a path without line breaks. */
  lemma BreaksMatterExactly(path: string)
    ensures OneLine(path) <==> forall pattern :: GlobMatches(pattern, path, false) <==> GlobMatches(pattern, path, true)
  {
    hide GlobMatches;
    if OneLine(path) {
      forall pattern ensures GlobMatches(pattern, path, false) <==> GlobMatches(pattern, path, true) { OneLinePathSpansAll(pattern, path); }
    } else {
      DoubleStarMatches(path, false);
      DoubleStarMatches(path, true);
    }
  }

  lemma {:induction false} LiteralPrefix(prefix: string, pattern: string, path: string, breaks: bool)
    requires '*' !in prefix && '?' !in prefix
    ensures GlobMatches(prefix + pattern, prefix + path, breaks) <==> GlobMatches(pattern, path, breaks)
  {
    if prefix == "" {
      assert prefix + pattern == pattern && prefix + path == path;
    } else {
      LiteralPrefix(prefix[1..], pattern, path, breaks);
      assert (prefix + pattern)[1..] == prefix[1..] + pattern && (prefix + path)[1..] == prefix[1..] + path;
    }
  }

  // ----- patterns beyond ASCII

  lemma {:induction false} AsciiBytes(pattern: string)
    requires IsAscii(pattern)
    ensures Bytes(pattern) == pattern
  {
    if pattern != "" {
      assert pattern == [pattern[0]] + pattern[1..];
      assert pattern[0] in pattern && forall c :: c in pattern[1..] ==> c in pattern;
      AsciiBytes(pattern[1..]);
    }
  }

  /** The fewest characters a match has: one for each `?` and each literal. */
  function Shortest(pattern: string): nat {
    if pattern == "" then 0
    else (if pattern[0] == '*' then 0 else 1) + Shortest(pattern[1..])
  }

  /** A path with as few characters that matches. */
  function Instance(pattern: string): (path: string)
    ensures |path| == Shortest(pattern)
  {
    if pattern == "" then ""
    else (if pattern[0] == '*' then "" else if pattern[0] == '?' then "a" else [pattern[0]]) + Instance(pattern[1..])
  }

  lemma {:induction false} MatchIsNotShorter(pattern: string, path: string, breaks: bool)
    requires GlobMatches(pattern, path, breaks)
    ensures |path| >= Shortest(pattern)
    decreases |pattern| + |path|
  {
    if pattern == "" {
    } else if StartsDouble(pattern) {
      assert pattern[1..][1..] == pattern[2..] && Shortest(pattern) == Shortest(pattern[2..]);
      if GlobMatches(pattern[2..], path, breaks) {
        MatchIsNotShorter(pattern[2..], path, breaks);
      } else {
        MatchIsNotShorter(pattern, path[1..], breaks);
      }
    } else if pattern[0] == '*' {
      if GlobMatches(pattern[1..], path, breaks) {
        MatchIsNotShorter(pattern[1..], path, breaks);
      } else {
        MatchIsNotShorter(pattern, path[1..], breaks);
      }
    } else {
      MatchIsNotShorter(pattern[1..], path[1..], breaks);
    }
  }

  lemma {:induction false} InstanceMatches(pattern: string, breaks: bool)
    ensures GlobMatches(pattern, Instance(pattern), breaks)
    decreases |pattern|
  {
    if pattern == "" {
    } else if StartsDouble(pattern) {
      assert pattern[1..][1..] == pattern[2..];
      assert Instance(pattern) == "" + ("" + Instance(pattern[2..])) == Instance(pattern[2..]);
      InstanceMatches(pattern[2..], breaks);
    } else {
      InstanceMatches(pattern[1..], breaks);
      var rest := Instance(pattern[1..]);
      if pattern[0] == '*' {
        assert Instance(pattern) == "" + rest == rest;
      } else {
        assert Instance(pattern)[1..] == rest;
      }
    }
  }

  /** The bytes of a pattern ask for at least as many characters as the pattern, and more of them beyond ASCII. */
  lemma {:induction false} BytesAskForMore(pattern: string)
    ensures Shortest(Bytes(pattern)) >= Shortest(pattern)
    ensures !IsAscii(pattern) ==> Shortest(Bytes(pattern)) > Shortest(pattern)
  {
    if pattern != "" {
      BytesAskForMore(pattern[1..]);
      assert pattern == [pattern[0]] + pattern[1..];
      if IsAsciiChar(pattern[0]) {
        assert Bytes(pattern)[1..] == Bytes(pattern[1..]);
      } else {
        ShortestOfLiterals(Utf8(pattern[0]), Bytes(pattern[1..]));
      }
    }
  }

  lemma {:induction false} ShortestOfLiterals(literals: string, rest: string)
    requires '*' !in literals
    ensures Shortest(literals + rest) == |literals| + Shortest(rest)
  {
    if literals == "" {
      assert literals + rest == rest;
    } else {
      ShortestOfLiterals(literals[1..], rest);
      assert (literals + rest)[1..] == literals[1..] + rest;
    }
  }

  /** The letter e with an acute accent. */
  const ACCENT := "\U{E9}"

  /** The pattern "é" is taken for its two bytes and does not match the path "é". */
  lemma AccentIsRefused()
    ensures GlobMatches(ACCENT, ACCENT, true) && !Accepts(ACCENT, ACCENT)
  {
    hide GlobMatches;
    InstanceMatches(ACCENT, true);
    assert ACCENT[1..] == "" && Instance("") == "" && Instance(ACCENT) == ACCENT + "" == ACCENT;
    assert ACCENT[0] in ACCENT && !IsAsciiChar(ACCENT[0]);
    BytesAskForMore(ACCENT);
    if Accepts(ACCENT, ACCENT) {
      MatchIsNotShorter(Bytes(ACCENT), ACCENT, false);
    }
  }

  /** Matching bytes for characters is right on every path exactly for ASCII patterns; the others refuse their own shortest instance. */
  lemma BytesMatterExactly(pattern: string)
    ensures IsAscii(pattern) <==> forall path :: Accepts(pattern, path) <==> GlobMatches(pattern, path, false)
    ensures !IsAscii(pattern) ==> GlobMatches(pattern, Instance(pattern), false) && !Accepts(pattern, Instance(pattern))
  {
    hide GlobMatches;
    if IsAscii(pattern) {
      AsciiBytes(pattern);
    } else {
      BytesAskForMore(pattern);
      InstanceMatches(pattern, false);
      if Accepts(pattern, Instance(pattern)) {
        MatchIsNotShorter(Bytes(pattern), Instance(pattern), false);
      }
    }
  }

  lemma {:induction false} InstanceIsOneLine(pattern: string)
    requires OneLine(pattern)
    ensures OneLine(Instance(pattern))
  {
    if pattern != "" {
      InstanceIsOneLine(pattern[1..]);
    }
  }

  /** A pattern with a line break matches no path without one. */
  lemma {:induction false} BrokenPatternMatchesNothing(pattern: string, path: string, breaks: bool)
    requires !OneLine(pattern) && OneLine(path)
    ensures !GlobMatches(pattern, path, breaks)
    decreases |pattern| + |path|
  {
    if StartsDouble(pattern) {
      assert pattern == "**" + pattern[2..];
      BrokenPatternMatchesNothing(pattern[2..], path, breaks);
      if path != "" { BrokenPatternMatchesNothing(pattern, path[1..], breaks); }
    } else if pattern[0] == '*' {
      assert pattern == "*" + pattern[1..];
      BrokenPatternMatchesNothing(pattern[1..], path, breaks);
      if path != "" { BrokenPatternMatchesNothing(pattern, path[1..], breaks); }
    } else if path != "" && pattern[0] != '\n' {
      assert pattern == [pattern[0]] + pattern[1..];
      BrokenPatternMatchesNothing(pattern[1..], path[1..], breaks);
    }
  }

  lemma {:induction false} BytesKeepBreaks(pattern: string)
    ensures OneLine(Bytes(pattern)) <==> OneLine(pattern)
  {
    if pattern != "" {
      BytesKeepBreaks(pattern[1..]);
      assert pattern == [pattern[0]] + pattern[1..];
    }
  }

  /** On one-line paths the code is the direct matcher exactly for patterns that are ASCII, or can match no such path anyway. */
  lemma CompilerIsExactFor(pattern: string)
    ensures (forall path :: OneLine(path) ==> (Accepts(pattern, path) <==> GlobMatches(pattern, path, true)))
            <==> IsAscii(pattern) || !OneLine(pattern)
  {
    hide GlobMatches, Instance;
    if IsAscii(pattern) || !OneLine(pattern) {
      forall path | OneLine(path) ensures Accepts(pattern, path) <==> GlobMatches(pattern, path, true) {
        OneLinePathSpansAll(pattern, path);
        if IsAscii(pattern) {
          AsciiBytes(pattern);
        } else {
          BytesKeepBreaks(pattern);
          BrokenPatternMatchesNothing(pattern, path, true);
          BrokenPatternMatchesNothing(Bytes(pattern), path, false);
        }
      }
    } else {
      BytesMatterExactly(pattern);
      InstanceIsOneLine(pattern);
      InstanceMatches(pattern, true);
    }
  }

  lemma GithubBytes()
    ensures Bytes(".github/**") == ".github/**"
  {
    hide Bytes;
    assert forall i :: 0 <= i < |".github/**"| ==> IsAsciiChar(".github/**"[i]);
    AsciiBytes(".github/**");
  }

  /** A file name that holds a line break slips past a `**` pattern. */
  lemma BreakSlipsPast()
    ensures GlobMatches(".github/**", ".github/\n", true) && !Accepts(".github/**", ".github/\n")
  {
    hide GlobMatches, Bytes;
    GithubBytes();
    BreakIsNotSpanned();
  }

  lemma BreakIsNotSpanned()
    ensures GlobMatches(".github/**", ".github/\n", true) && !GlobMatches(".github/**", ".github/\n", false)
  {
    LiteralPrefix(".github/", "**", "\n", true);
    LiteralPrefix(".github/", "**", "\n", false);
    assert ".github/**" == ".github/" + "**" && ".github/\n" == ".github/" + "\n";
    assert GlobMatches("", "", true);
    assert GlobMatches("**", "\n"[1..], true);
    assert GlobMatches("**", "\n", true);
    assert !GlobMatches("**"[2..], "\n", false);
  }

  // ----- the loop

  lemma EmptyBody()
    ensures Body("") == ""
  {
  }

  lemma BodyAt(pattern: string, i: nat)
    requires i < |pattern|
    ensures Body(pattern[i..]) ==
            if pattern[i] == '*' && i + 1 < |pattern| && pattern[i + 1] == '*' then ".*" + Body(pattern[i + 2..])
            else (if pattern[i] == '*' then "[^/]*" else if pattern[i] == '?' then "[^/]" else QuoteMeta(pattern[i])) + Body(pattern[i + 1..])
  {
    hide QuoteMeta;
    var rest := pattern[i..];
    assert rest[1..] == pattern[i + 1..];
    if i + 1 < |pattern| { assert rest[2..] == pattern[i + 2..]; }
  }

  /** globMatch */
  method GlobMatch(pattern: string, path: string) returns (matched: bool)
    ensures matched <==> Accepts(pattern, path)
    ensures IsAscii(pattern) && OneLine(path) ==> (matched <==> GlobMatches(pattern, path, true))
  {
    hide GlobMatches, RegexMatches, Body, QuoteMeta, Bytes;
    var bytes := Bytes(pattern);
    var re := "^";
    var i := 0;
    while i < |bytes|
      invariant 0 <= i <= |bytes|
      invariant re + Body(bytes[i..]) == "^" + Body(bytes)
    {
      BodyAt(bytes, i);
      if bytes[i] == '*' && i + 1 < |bytes| && bytes[i + 1] == '*' {
        re := re + ".*";
        i := i + 1;
      } else if bytes[i] == '*' {
        re := re + "[^/]*";
      } else if bytes[i] == '?' {
        re := re + "[^/]";
      } else {
        re := re + QuoteMeta(bytes[i]);
      }
      i := i + 1;
    }
    assert bytes[i..] == "" && re + "" == re;
    EmptyBody();
    re := re + "$";
    matched := RegexMatches(re, path);
    WrittenRegexIsGlob(bytes, path);
    CompilerIsExactFor(pattern);
  }
}
