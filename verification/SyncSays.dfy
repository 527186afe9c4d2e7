/** What sync writes into a task, told by the issue's text, and that no change of the text goes unnoticed. */
module SyncSays {
  import opened Text
  import opened IssueBody
  import opened IssueFields
  import opened GithubSync
  import Slugs

  // ----- the description

  /** A text that is empty or starts a new line. */
  predicate Breaks(s: string) {
    s == "" || s[0] == '\n'
  }

  /** Lines can be cut off in one way only. */
  lemma {:induction false} CutAtBreak(a: string, x: string, b: string, y: string)
    requires OneLine(a) && OneLine(b) && Breaks(x) && Breaks(y) && a + x == b + y
    ensures a == b && x == y
  {
    assert a == "" ==> a + x == x;
    assert b == "" ==> b + y == y;
    assert a != "" ==> (a + x)[0] == a[0];
    assert b != "" ==> (b + y)[0] == b[0];
    if a != "" && b != "" {
      assert a[1..] + x == (a + x)[1..] == (b + y)[1..] == b[1..] + y;
      CutAtBreak(a[1..], x, b[1..], y);
      assert a == [a[0]] + a[1..] && b == [b[0]] + b[1..];
    }
  }

  /** The text of an issue as a description ends with it: behind an empty line, or nothing. */
  function Tail(issue: Issue): string {
    if Stripped(issue.body) == "" then "" else "\n\n" + Stripped(issue.body)
  }

  /** A description: the issue's number, its address, and, behind an empty line, all of its text that is no metadata. */
  lemma DescriptionReads(issue: Issue)
    ensures Description(issue) == "Synced from GitHub Issue #" + Decimal(issue.number) + ("\nURL: " + issue.url + Tail(issue))
  {
    NothingIsStripped();
    hide Stripped, Decimal;
    var first, second, text := SYNCED + Decimal(issue.number), "URL: " + issue.url, Stripped(issue.body);
    TwoLines(first, second);
    assert first + "\n" + second == first + ("\nURL: " + issue.url + "");
    if text != "" {
      FourLines(first, second, text);
      assert [first, second] + ["", text] == [first, second, "", text];
      assert first + "\n" + second + "\n\n" + text == first + ("\nURL: " + issue.url + ("\n\n" + text));
    }
  }

  lemma TwoLines(a: string, b: string)
    ensures Join([a, b]) == a + "\n" + b
  {
    assert [a, b][1..] == [b];
  }

  lemma FourLines(a: string, b: string, c: string)
    ensures Join([a, b, "", c]) == a + "\n" + b + "\n\n" + c
  {
    assert [a, b, "", c][1..] == [b, "", c] && [b, "", c][1..] == ["", c];
    TwoLines("", c);
    assert Join([b, "", c]) == b + "\n" + ("" + "\n" + c);
  }

  lemma TailsAgree(a: Issue, b: Issue)
    ensures Tail(a) == Tail(b) <==> Stripped(a.body) == Stripped(b.body)
    ensures Breaks(Tail(a))
  {
    hide Stripped;
    assert Stripped(a.body) != "" ==> Tail(a)[2..] == Stripped(a.body);
    assert Stripped(b.body) != "" ==> Tail(b)[2..] == Stripped(b.body);
  }

  /** Two issues have the same description if and only if number, address and text without metadata agree. */
  lemma DescriptionsAgree(a: Issue, b: Issue)
    requires OneLine(a.url) && OneLine(b.url)
    ensures Description(a) == Description(b) <==> a.number == b.number && a.url == b.url && Stripped(a.body) == Stripped(b.body)
  {
    DescriptionReads(a);
    DescriptionReads(b);
    TailsAgree(a, b);
    TailsAgree(b, a);
    hide Stripped, Decimal, Description, Tail, Breaks, OneLine;
    var x, y := "\nURL: " + a.url + Tail(a), "\nURL: " + b.url + Tail(b);
    if Description(a) == Description(b) {
      var n := |"Synced from GitHub Issue #"|;
      assert Decimal(a.number) + x == Description(a)[n..] == Description(b)[n..] == Decimal(b.number) + y;
      assert x[0] == '\n' && y[0] == '\n';
      DigitsCutOnce(Decimal(a.number), x, Decimal(b.number), y);
      ValueOfDecimal(a.number);
      ValueOfDecimal(b.number);
      var m := |"\nURL: "|;
      assert a.url + Tail(a) == x[m..] == y[m..] == b.url + Tail(b);
      CutAtBreak(a.url, Tail(a), b.url, Tail(b));
    }
  }

  // ----- the title

  predicate Digits(s: string) {
    s != "" && forall c :: c in s ==> IsDigit(c)
  }

  predicate Blanks(s: string) {
    forall c :: c in s ==> IsRegexSpace(c)
  }

  predicate StartsPlain(s: string) {
    s == "" || !IsRegexSpace(s[0])
  }

  lemma {:induction false} SkipBlanks(blanks: string, rest: string)
    requires Blanks(blanks) && StartsPlain(rest)
    ensures SkipSpaces(blanks + rest) == rest
  {
    if blanks == "" {
      assert blanks + rest == rest;
    } else {
      SkipBlanks(blanks[1..], rest);
      assert (blanks + rest)[1..] == blanks[1..] + rest;
      assert blanks[0] in blanks;
    }
  }

  lemma {:induction false} SkipNumber(digits: string, rest: string)
    requires (forall c :: c in digits ==> IsDigit(c)) && (rest == "" || !IsDigit(rest[0]))
    ensures SkipDigits(digits + rest) == rest
  {
    if digits == "" {
      assert digits + rest == rest;
    } else {
      SkipNumber(digits[1..], rest);
      assert (digits + rest)[1..] == digits[1..] + rest;
      assert digits[0] in digits;
    }
  }

  /** A sprint's number in front of a title goes, with the blanks behind it. */
  lemma SprintGoes(digits: string, blanks: string, rest: string)
    requires Digits(digits) && Blanks(blanks) && StartsPlain(rest)
    ensures WithoutSprint("[Sprint " + digits + "]" + blanks + rest) == rest
  {
    var title := "[Sprint " + digits + "]" + blanks + rest;
    var behind := "]" + (blanks + rest);
    assert title == "[Sprint " + (digits + behind);
    assert title[|SPRINT|..] == digits + behind;
    SkipNumber(digits, behind);
    assert behind[1..] == blanks + rest;
    SkipBlanks(blanks, rest);
  }

  lemma {:induction false} SkippedDigits(s: string)
    ensures forall c :: c in s[..|s| - |SkipDigits(s)|] ==> IsDigit(c)
    ensures SkipDigits(s) == s[|s| - |SkipDigits(s)|..]
  {
    if s != "" && IsDigit(s[0]) {
      SkippedDigits(s[1..]);
      var n := |s| - |SkipDigits(s)|;
      assert s[..n] == [s[0]] + s[1..][..n - 1];
    }
  }

  lemma HeadOf(prefix: string, digits: string, behind: string)
    ensures prefix + digits + "]" <= prefix + (digits + ("]" + behind))
  {
    assert prefix + (digits + ("]" + behind)) == (prefix + digits + "]") + behind;
  }

  /** A title that is cut starts with a sprint's number in brackets. */
  lemma CutMeansSprint(title: string)
    ensures WithoutSprint(title) == title || exists digits :: Digits(digits) && SPRINT + digits + "]" <= title
  {
    if SPRINT <= title {
      var number := title[|SPRINT|..];
      var rest := SkipDigits(number);
      SkippedDigits(number);
      if |rest| < |number| && rest != "" && rest[0] == ']' {
        var digits, behind := number[..|number| - |rest|], rest[1..];
        hide SkipDigits;
        assert digits + ("]" + behind) == number;
        assert SPRINT + number == title;
        HeadOf(SPRINT, digits, behind);
        assert SPRINT + digits + "]" <= title;
        assert Digits(digits);
      }
    }
  }

  /** Any other title stays. */
  lemma OtherTitleStays(title: string)
    requires forall digits :: Digits(digits) ==> !("[Sprint " + digits + "]" <= title)
    ensures WithoutSprint(title) == title
  {
    hide WithoutSprint, Digits;
    CutMeansSprint(title);
  }

  /** The title of a task is the issue's title behind a sprint's number and a task's short id, where it starts with those. */
  lemma TitleBehindPrefixes(issue: Issue, title: string, id: string, blanks: string, rest: string)
    requires WithoutSprint(issue.title) == title
    ensures IsShortId(id) && Blanks(blanks) && StartsPlain(rest) && title == "[" + id + "]" + blanks + rest ==> Title(issue) == rest
    ensures (forall short :: IsShortId(short) ==> !("[" + short + "]" <= title)) ==> Title(issue) == title
  {
    if IsShortId(id) && Blanks(blanks) && StartsPlain(rest) && title == "[" + id + "]" + blanks + rest {
      assert title[1..9] == id;
      assert title[10..] == blanks + rest;
      SkipBlanks(blanks, rest);
    }
    if |title| >= 10 && title[0] == '[' && IsShortId(title[1..9]) && title[9] == ']' {
      assert title[..10] == "[" + title[1..9] + "]";
    }
  }

  // ----- the priority

  /** The four priorities by number. */
  function Nth(n: nat): string
    requires 1 <= n <= 4
  {
    ["p1_urgent", "p2_high", "p3_medium", "p4_low"][n - 1]
  }

  /** A text speaks of the n-th priority by its number or its name, in any case. */
  predicate SpeaksOf(text: string, n: nat)
    requires 1 <= n <= 4
  {
    Contains(Slugs.ToLower(text), ["p1", "p2", "p3", "p4"][n - 1]) || Contains(Slugs.ToLower(text), ["urgent", "high", "medium", "low"][n - 1])
  }

  /** The line behind the first priority mark that is followed by a P and a digit from 1 to 4. */
  function PriorityLine(body: string): Option<string> {
    var m := First(PriorityAt, body);
    if m.Some? then Some(Trim(m.value)) else None
  }

  /** The priority read is the highest one the line speaks of; without such a line there is none. */
  lemma PriorityIsHighest(body: string)
    ensures PriorityLine(body) == None <==> Priority(body) == ""
    ensures PriorityLine(body).Some? ==>
              exists n :: 1 <= n <= 4 && Priority(body) == Nth(n) && SpeaksOf(PriorityLine(body).value, n)
                          && forall m :: 1 <= m < n ==> !SpeaksOf(PriorityLine(body).value, m)
  {
    if PriorityLine(body).Some? {
      var line := PriorityLine(body).value;
      LineNamesItself(body);
      hide Contains, Slugs.ToLower, First, Trim;
      var n := if SpeaksOf(line, 1) then 1 else if SpeaksOf(line, 2) then 2 else if SpeaksOf(line, 3) then 3 else 4;
      assert SpeaksOf(line, n) && Priority(body) == Nth(n);
    }
  }

  lemma {:induction false} FirstIsSome(body: string)
    ensures First(PriorityAt, body).Some? ==>
              exists s :: PriorityAt(s) == First(PriorityAt, body)
  {
    if body != "" && PriorityAt(body) == None {
      FirstIsSome(body[1..]);
    }
  }

  /** The line starts with P and its digit. */
  lemma LineNamesItself(body: string)
    ensures PriorityLine(body).Some? ==>
              var line := PriorityLine(body).value;
              |line| >= 2 && line[0] == 'P' && '1' <= line[1] <= '4' && SpeaksOf(line, (line[1] - '0') as nat)
  {
    if PriorityLine(body).Some? {
      FirstIsSome(body);
      var s :| PriorityAt(s) == First(PriorityAt, body);
      var raw := First(PriorityAt, body).value;
      RawStarts(s);
      TrimKeepsStart(raw);
      var line := Trim(raw);
      hide Trim, First, PriorityAt, Contains;
      NamedByDigit(line);
    }
  }

  lemma RawStarts(s: string)
    requires PriorityAt(s).Some?
    ensures var raw := PriorityAt(s).value; |raw| >= 2 && raw[0] == 'P' && '1' <= raw[1] <= '4'
  {
    var a := SkipSpaces(s[|PRIORITY|..]);
    assert a[1..][0] == a[1];
    assert FirstLine(a) == [a[0]] + ([a[1]] + FirstLine(a[1..][1..]));
  }

  lemma TrimKeepsStart(raw: string)
    requires |raw| >= 2 && raw[0] == 'P' && '1' <= raw[1] <= '4'
    ensures var line := Trim(raw); |line| >= 2 && line[0] == raw[0] && line[1] == raw[1]
  {
    TrimRightCuts(raw);
    assert !IsSpace(raw[1]) && !IsSpace(raw[0]);
    assert TrimLeft(raw) == raw;
  }

  lemma NamedByDigit(line: string)
    requires |line| >= 2 && line[0] == 'P' && '1' <= line[1] <= '4'
    ensures SpeaksOf(line, (line[1] - '0') as nat)
  {
    var lower := Slugs.ToLower(line);
    assert lower[0] == 'p' && lower[1] == line[1];
    assert lower[..2] == [lower[0], lower[1]];
  }

  /** A line that names Pn has the n-th priority if and only if it speaks of no higher one besides. */
  lemma NamedPriority(body: string, n: nat)
    requires 1 <= n <= 4 && PriorityLine(body).Some? && "P" + Decimal(n) <= PriorityLine(body).value
    ensures Priority(body) == Nth(n) <==> forall m :: 1 <= m < n ==> !SpeaksOf(PriorityLine(body).value, m)
  {
    PriorityIsHighest(body);
    LineNamesItself(body);
    var line := PriorityLine(body).value;
    assert ("P" + Decimal(n))[1] == Digit(n) == line[1];
    hide SpeaksOf, PriorityLine, Priority, Nth;
    var k :| 1 <= k <= 4 && Priority(body) == Nth(k) && SpeaksOf(line, k) && forall m :: 1 <= m < k ==> !SpeaksOf(line, m);
    NthIsOneToOne(n, k);
    assert k <= n;
  }

  lemma NthIsOneToOne(n: nat, k: nat)
    requires 1 <= n <= 4 && 1 <= k <= 4
    ensures Nth(n) == Nth(k) ==> n == k
  {
    assert Nth(n)[1] == Digit(n) && Nth(k)[1] == Digit(k);
  }

  lemma {:induction false} FirstLineOf(line: string, rest: string)
    requires OneLine(line) && Breaks(rest)
    ensures FirstLine(line + rest) == line
  {
    if line == "" {
      assert line + rest == rest;
    } else {
      FirstLineOf(line[1..], rest);
      assert (line + rest)[1..] == line[1..] + rest;
    }
  }

  /** Where the line is found: behind the mark and blanks, if no such line stands before it. */
  lemma PriorityOfLine(before: string, blanks: string, line: string, rest: string)
    requires OneLine(line) && Breaks(rest) && Blanks(blanks) && |line| >= 2 && line[0] == 'P' && '1' <= line[1] <= '4'
    requires var body := before + ("**Priority:**" + blanks + line + rest);
             forall i {:trigger body[i..]} :: 0 <= i < |before| ==> PriorityAt(body[i..]) == None
    ensures PriorityLine(before + ("**Priority:**" + blanks + line + rest)) == Some(Trim(line))
  {
    var marked := "**Priority:**" + blanks + line + rest;
    FirstPast(PriorityAt, before, marked);
    MarkedLine(blanks, line, rest);
    hide PriorityAt, Trim, OneLine, Breaks, Blanks;
    assert First(PriorityAt, marked) == Some(line);
  }

  lemma MarkedLine(blanks: string, line: string, rest: string)
    requires OneLine(line) && Breaks(rest) && Blanks(blanks) && |line| >= 2 && line[0] == 'P' && '1' <= line[1] <= '4'
    ensures PriorityAt("**Priority:**" + blanks + line + rest) == Some(line)
  {
    var marked := "**Priority:**" + blanks + line + rest;
    var behind := line + rest;
    assert marked == PRIORITY + (blanks + behind);
    assert marked[|PRIORITY|..] == blanks + behind;
    SkipBlanks(blanks, behind);
    FirstLineOf(line, rest);
    hide FirstLine, SkipSpaces, OneLine, Blanks;
    assert behind[0] == 'P' && behind[1] == line[1];
  }

  /** A line that names P2 and remembers P1 is read as urgent. */
  lemma FormerPriorityCounts()
    ensures var line := "P2 (was P1)"; var body := "**Priority:**" + " " + line;
      PriorityLine(body) == Some(line) && Priority(body) == Nth(1)
  {
    var line, blank := "P2 (was P1)", " ";
    var body := "**Priority:**" + blank + line;
    PriorityOfLine("", blank, line, "");
    hide SpeaksOf, PriorityLine, Priority, Nth, Trim;
    assert body == "" + ("**Priority:**" + blank + line + "");
    TrimOfTrimmed(line);
    PriorityIsHighest(body);
    SpeaksOfUrgent();
  }

  lemma SpeaksOfUrgent()
    ensures SpeaksOf("P2 (was P1)", 1)
  {
    ContainsBehind("p2 (was ", "p1", ")");
    assert Slugs.ToLower("P2 (was P1)") == "p2 (was " + "p1" + ")";
  }

  lemma {:induction false} ContainsBehind(a: string, part: string, b: string)
    ensures Contains(a + part + b, part)
  {
    var s := a + part + b;
    if a == "" {
      assert s[..|part|] == part;
    } else {
      ContainsBehind(a[1..], part, b);
      assert s[1..] == a[1..] + part + b;
    }
  }

  // ----- epic, dependencies and Task ID

  /** Two characters are the same letter, or the same character. */
  predicate SameLetter(a: char, b: char) {
    a == b || ('A' <= a <= 'Z' && b == a - 'A' + 'a') || ('A' <= b <= 'Z' && a == b - 'A' + 'a')
  }

  /** Epics are looked up by name, whatever the case of its letters and the blanks around it. */
  lemma EpicsAgree(a: string, b: string)
    ensures EpicKey(a) == EpicKey(b) <==>
            |Trim(a)| == |Trim(b)| && forall i :: 0 <= i < |Trim(a)| ==> SameLetter(Trim(a)[i], Trim(b)[i])
  {
    hide Trim;
    var x, y := Trim(a), Trim(b);
    if |x| == |y| {
      forall i | 0 <= i < |x| ensures SameLetter(x[i], y[i]) <==> Slugs.ToLower(x)[i] == Slugs.ToLower(y)[i] {
        LettersAgree(x[i], y[i]);
      }
      assert Slugs.ToLower(x) == Slugs.ToLower(y) <==> forall i :: 0 <= i < |x| ==> Slugs.ToLower(x)[i] == Slugs.ToLower(y)[i];
    }
  }

  lemma LettersAgree(a: char, b: char)
    ensures SameLetter(a, b) <==> Slugs.LowerChar(a) == Slugs.LowerChar(b)
  {
  }

  lemma FieldLine(mark: string, blanks: string, line: string, rest: string)
    requires OneLine(line) && Breaks(rest) && Blanks(blanks) && line != "" && StartsPlain(line)
    ensures var behind := (mark + (blanks + (line + rest)))[|mark|..];
            SkipSpaces(behind) == line + rest && SkipSpaces(behind) != "" && FirstLine(SkipSpaces(behind)) == line
  {
    assert (mark + (blanks + (line + rest)))[|mark|..] == blanks + (line + rest);
    assert (line + rest)[0] == line[0];
    SkipBlanks(blanks, line + rest);
    FirstLineOf(line, rest);
  }

  /** The epic's name is the line behind the first mark and blanks, which may hold line breaks. */
  lemma EpicOfLine(before: string, blanks: string, line: string, rest: string)
    requires OneLine(line) && Breaks(rest) && Blanks(blanks) && line != "" && StartsPlain(line)
    requires var body := before + ("**Epic:**" + (blanks + (line + rest)));
             forall i {:trigger body[i..]} :: 0 <= i < |before| ==> EpicAt(body[i..]) == None
    ensures Epic(before + ("**Epic:**" + (blanks + (line + rest)))) == Trim(line)
  {
    var marked := "**Epic:**" + (blanks + (line + rest));
    FieldLine("**Epic:**", blanks, line, rest);
    FirstPast(EpicAt, before, marked);
    assert EPIC <= marked;
    hide Trim, FirstLine, SkipSpaces, OneLine, Breaks, Blanks;
    assert EpicAt(marked) == Some(line);
  }

  /** So is the line of dependencies. */
  lemma DependenciesOfLine(before: string, blanks: string, line: string, rest: string)
    requires OneLine(line) && Breaks(rest) && Blanks(blanks) && line != "" && StartsPlain(line)
    requires var body := before + ("**Dependencies:**" + (blanks + (line + rest)));
             forall i {:trigger body[i..]} :: 0 <= i < |before| ==> DepsAt(body[i..]) == None
    ensures First(DepsAt, before + ("**Dependencies:**" + (blanks + (line + rest)))) == Some(line)
  {
    var marked := "**Dependencies:**" + (blanks + (line + rest));
    FieldLine("**Dependencies:**", blanks, line, rest);
    FirstPast(DepsAt, before, marked);
    assert DEPENDENCIES <= marked;
    hide FirstLine, SkipSpaces, OneLine, Breaks, Blanks;
    assert DepsAt(marked) == Some(line);
  }

  /** The Task ID stands behind its mark and blanks, with or without a backquote. */
  lemma TaskIdOfLine(blanks: string, quote: string, id: string, rest: string)
    requires Blanks(blanks) && quote in {"", "`"} && IsShortId(id)
    ensures TaskIdAt("**Task ID:**" + (blanks + (quote + (id + rest)))) == Some(id)
  {
    var marked, behind := "**Task ID:**" + (blanks + (quote + (id + rest))), quote + (id + rest);
    assert marked[|TASK_ID|..] == blanks + behind;
    assert IsHex(id[0]) && (id + rest)[0] == id[0] && (id + rest)[..8] == id;
    if quote == "" {
      assert behind == id + rest;
    } else {
      assert behind[1..] == id + rest && behind[0] == '`';
    }
    SkipBlanks(blanks, behind);
  }

  // ----- what is written

  /** The text of a description. */
  function WholeText(issue: Issue): string {
    "Synced from GitHub Issue #" + Decimal(issue.number) + ("\nURL: " + issue.url + Tail(issue))
  }

  /** What becomes of the tasks when the write goes through. */
  lemma WhatIsWritten(find: string -> string, s: Store, issue: Issue, a: Answers, found: Option<string>)
    requires Finds(s.tasks, issue, a, found) && IsUuid(a.id) && a.write
    ensures var tasks := After(find, s, issue, a, found).tasks; var epic := EpicOf(find, issue);
      && (found == None && issue.closed ==> tasks == s.tasks)
      && (found == None && !issue.closed ==>
            tasks == s.tasks[a.id := Task("gh-" + Decimal(issue.number), Title(issue), Some(WholeText(issue)),
                                          if Priority(issue.body) == "" then "p3_medium" else Priority(issue.body), epic, "approved")])
      && (found.Some? ==> found.value in s.tasks)
      && (found.Some? && issue.closed ==>
            var task := s.tasks[found.value];
            tasks == if task.status in {"done", "cancelled"} then s.tasks else s.tasks[found.value := task.(status := "done")])
      && (found.Some? && !issue.closed ==>
            var task := s.tasks[found.value];
            tasks == s.tasks[found.value := Task(task.ref, Title(issue), Some(WholeText(issue)),
                                                 if Priority(issue.body) == "" then task.priority else Priority(issue.body),
                                                 if epic == "" then task.epic else epic, task.status)])
  {
    DescriptionReads(issue);
    FoundIsThere(s.tasks, issue, a, found);
    hide Answered, Title, Description, Priority, EpicOf, TaskId, IsUuid, BodiesStamped, Decimal;
  }

  /** The issue still says all that it said when its task was brought in line. */
  predicate SaysTheSame(find: string -> string, task: Task, was: Issue, now: Issue) {
    && now.number == was.number && now.url == was.url && Stripped(now.body) == Stripped(was.body) && Title(now) == Title(was)
    && (Priority(now.body) == "" || Priority(now.body) == task.priority)
    && (EpicOf(find, now) == "" || EpicOf(find, now) == task.epic)
  }

  /** After an edit of an issue the next step attempts an update of its task if and only if the issue says something new. */
  lemma EditIsNoticed(find: string -> string, s: Store, was: Issue, now: Issue, a: Answers, k: string)
    requires Finds(s.tasks, now, a, Some(k)) && IsUuid(a.id) && k in s.tasks
    requires !was.closed && !now.closed && OneLine(was.url) && OneLine(now.url) && InSync(find, s.tasks[k], was)
    ensures After(find, s, now, a, Some(k)).writes ==
            s.writes + if SaysTheSame(find, s.tasks[k], was, now) then [] else [Update(k)]
  {
    DescriptionsAgree(was, now);
    hide Answered, Title, Description, Priority, EpicOf, TaskId, IsUuid, BodiesStamped, Stripped;
    assert s.tasks[k].description == Some(Description(was)) && s.tasks[k].title == Title(was);
  }

  // ----- the lookups and the stamp

  /** A task found for an issue: the body's Task ID starts the task's id, or the task refers to the issue; the Task ID comes first. */
  lemma FoundByIdFirst(tasks: map<string, Task>, issue: Issue, a: Answers, k: string)
    requires Finds(tasks, issue, a, Some(k))
    ensures k in tasks
    ensures !(TaskId(issue.body).Some? && TaskId(issue.body).value <= k) ==> tasks[k].ref == "gh-" + Decimal(issue.number)
    ensures a.idLookup && TaskId(issue.body).Some? && (exists l :: l in tasks && TaskId(issue.body).value <= l) ==>
              TaskId(issue.body).value <= k
  {
    hide TaskId, Decimal;
    if l :| a.idLookup && TaskId(issue.body).Some? && l in tasks && TaskId(issue.body).value <= l {
      assert l in ById(tasks, TaskId(issue.body).value);
    }
  }

  /** The bodies change only when a task is made for an issue that names none: then the body names the new task and says the same. */
  lemma StampNamesTask(find: string -> string, s: Store, issue: Issue, a: Answers, found: Option<string>)
    requires Finds(s.tasks, issue, a, found) && IsUuid(a.id)
    ensures var bodies := After(find, s, issue, a, found).bodies; var n := issue.number;
      var stamps := found == None && !issue.closed && a.write && a.view && a.edit
                    && n in s.bodies && TaskId(issue.body) == None && TaskId(s.bodies[n]) == None;
      && (!stamps ==> bodies == s.bodies)
      && (stamps ==> bodies == s.bodies[n := bodies[n]] && TaskId(bodies[n]) == Some(a.id[..8]) && Stripped(bodies[n]) == Stripped(s.bodies[n]))
  {
    if issue.number in s.bodies {
      StampedFields(a.id[..8], s.bodies[issue.number]);
      StampIsStripped(a.id[..8], s.bodies[issue.number]);
    }
    hide Answered, TaskId, InSync, InLine, NewTask, Stamped, Stripped, Written, IsShortId;
  }
}
