/**
 * The three slug makers: Slugify (collapse, then trim), the one-pass loop of the agent worktree,
 * and the bounded slug of an issue branch. Case folding is that of ASCII.
 */
module Slugs {
  import opened Text

  function LowerChar(c: char): char {
    if 'A' <= c <= 'Z' then c - 'A' + 'a' else c
  }

  /** strings.ToLower on ASCII letters. */
  function ToLower(s: string): (r: string)
    ensures |r| == |s|
  {
    seq(|s|, i requires 0 <= i < |s| => LowerChar(s[i]))
  }

  predicate IsSlugChar(c: char) {
    'a' <= c <= 'z' || '0' <= c <= '9'
  }

  /** Without the leading characters that do not belong in a slug. */
  function DropRun(s: string): (r: string)
    ensures |r| <= |s|
  {
    if s != "" && !IsSlugChar(s[0]) then DropRun(s[1..]) else s
  }

  /** Every run of other characters becomes one dash. */
  function Collapse(s: string): string
    decreases |s|
  {
    if s == "" then ""
    else if IsSlugChar(s[0]) then [s[0]] + Collapse(s[1..])
    else "-" + Collapse(DropRun(s[1..]))
  }

  function TrimLeftDashes(s: string): string {
    if s != "" && s[0] == '-' then TrimLeftDashes(s[1..]) else s
  }

  function TrimRightDashes(s: string): string {
    if s != "" && s[|s| - 1] == '-' then TrimRightDashes(s[..|s| - 1]) else s
  }

  /** Slugify of internal/adr. */
  function Slugify(title: string): string {
    TrimRightDashes(TrimLeftDashes(Collapse(ToLower(title))))
  }

  // ----- what a slug is

  /** Slug characters and single dashes between them. */
  predicate IsSlug(s: string) {
    && (forall i :: 0 <= i < |s| ==> IsSlugChar(s[i]) || s[i] == '-')
    && (forall i :: 0 < i < |s| ==> s[i - 1] != '-' || s[i] != '-')
    && (s != "" ==> s[0] != '-' && s[|s| - 1] != '-')
  }

  /** Slug characters and single dashes, wherever they stand. */
  predicate IsCollapsed(s: string) {
    && (forall i :: 0 <= i < |s| ==> IsSlugChar(s[i]) || s[i] == '-')
    && (forall i :: 0 < i < |s| ==> s[i - 1] != '-' || s[i] != '-')
  }

  lemma {:induction false} CollapseIsCollapsed(s: string)
    ensures IsCollapsed(Collapse(s))
    ensures s != "" && IsSlugChar(s[0]) ==> Collapse(s) != "" && Collapse(s)[0] == s[0]
    decreases |s|
  {
    if s != "" {
      if IsSlugChar(s[0]) {
        CollapseIsCollapsed(s[1..]);
      } else {
        var rest := DropRun(s[1..]);
        DropRunStops(s[1..]);
        CollapseIsCollapsed(rest);
      }
    }
  }

  lemma {:induction false} DropRunStops(s: string)
    ensures DropRun(s) != "" ==> IsSlugChar(DropRun(s)[0])
  {
    if s != "" && !IsSlugChar(s[0]) { DropRunStops(s[1..]); }
  }

  lemma {:induction false} TrimLeftDashesCuts(s: string)
    requires IsCollapsed(s)
    ensures IsCollapsed(TrimLeftDashes(s)) && (TrimLeftDashes(s) != "" ==> TrimLeftDashes(s)[0] != '-')
  {
    if s != "" && s[0] == '-' { TrimLeftDashesCuts(s[1..]); }
  }

  lemma {:induction false} TrimRightDashesCuts(s: string)
    requires IsCollapsed(s) && (s != "" ==> s[0] != '-')
    ensures IsSlug(TrimRightDashes(s))
  {
    if s != "" && s[|s| - 1] == '-' { TrimRightDashesCuts(s[..|s| - 1]); }
  }

  lemma SlugifyIsSlug(title: string)
    ensures IsSlug(Slugify(title))
  {
    hide Collapse, TrimLeftDashes, TrimRightDashes, IsCollapsed, IsSlug;
    CollapseIsCollapsed(ToLower(title));
    TrimLeftDashesCuts(Collapse(ToLower(title)));
    TrimRightDashesCuts(TrimLeftDashes(Collapse(ToLower(title))));
  }

  lemma {:induction false} CollapsedStays(s: string)
    requires IsCollapsed(s)
    ensures Collapse(s) == s
    decreases |s|
  {
    if s != "" {
      if !IsSlugChar(s[0]) {
        assert |s| > 1 ==> s[1] != '-' && IsSlugChar(s[1..][0]);
        assert DropRun(s[1..]) == s[1..];
      }
      CollapsedStays(s[1..]);
    }
  }

  lemma SlugStays(s: string)
    requires IsSlug(s)
    ensures Slugify(s) == s
  {
    assert ToLower(s) == s;
    CollapsedStays(s);
  }

  /** Slugifying twice is slugifying once, and the slugs are exactly what slugifying leaves alone. */
  lemma SlugifyTwice(title: string)
    ensures Slugify(Slugify(title)) == Slugify(title)
    ensures Slugify(title) == title <==> IsSlug(title)
  {
    hide Slugify, IsSlug;
    SlugifyIsSlug(title);
    SlugStays(Slugify(title));
    if IsSlug(title) { SlugStays(title); }
  }

  // ----- the one-pass loop

  lemma CollapseCons(c: char, rest: string)
    ensures Collapse([c] + rest) == if IsSlugChar(c) then [c] + Collapse(rest) else "-" + Collapse(DropRun(rest))
  {
    hide IsSlugChar, DropRun;
    assert ([c] + rest)[1..] == rest;
  }

  lemma {:induction false} CollapseSnoc(s: string, c: char)
    ensures Collapse(s + [c]) ==
            if IsSlugChar(c) then Collapse(s) + [c]
            else if s != "" && !IsSlugChar(s[|s| - 1]) then Collapse(s)
            else Collapse(s) + "-"
    decreases |s|
  {
    hide IsSlugChar, Collapse, DropRun;
    NothingCollapsed();
    if s == "" {
      CollapseCons(c, "");
      assert s + [c] == [c] + "" == [c];
    } else {
      var tail := s[1..];
      assert s == [s[0]] + tail && s + [c] == [s[0]] + (tail + [c]);
      CollapseCons(s[0], tail);
      CollapseCons(s[0], tail + [c]);
      if IsSlugChar(s[0]) {
        CollapseSnoc(tail, c);
      } else {
        DropRunSnoc(tail, c);
        if DropRun(tail) == "" {
          CollapseCons(c, "");
          assert [c] + "" == [c] && "-" + ([c] + "") == "-" + "" + [c];
          assert tail != "" ==> s[|s| - 1] == tail[|tail| - 1];
        } else {
          CollapseSnoc(DropRun(tail), c);
        }
      }
    }
  }

  lemma {:induction false} DropRunSnoc(s: string, c: char)
    ensures DropRun(s) == "" ==> DropRun(s + [c]) == (if IsSlugChar(c) then [c] else "") && (s != "" ==> !IsSlugChar(s[|s| - 1]))
    ensures DropRun(s) != "" ==> DropRun(s + [c]) == DropRun(s) + [c] && DropRun(s)[|DropRun(s)| - 1] == s[|s| - 1]
  {
    if s == "" {
      assert s + [c] == [c];
    } else {
      assert (s + [c])[1..] == s[1..] + [c];
      if !IsSlugChar(s[0]) { DropRunSnoc(s[1..], c); }
    }
  }

  lemma {:induction false} TrimLeftSnoc(s: string, c: char)
    ensures TrimLeftDashes(s + [c]) ==
            if TrimLeftDashes(s) == "" && c == '-' then "" else TrimLeftDashes(s) + [c]
  {
    if s == "" {
      assert s + [c] == [c];
    } else {
      assert (s + [c])[1..] == s[1..] + [c];
      if s[0] == '-' { TrimLeftSnoc(s[1..], c); }
    }
  }

  /** slug of internal/agent/worktree.go: one pass, and it makes the same slug. */
  method SlugInOnePass(s: string) returns (slug: string)
    ensures slug == Slugify(s)
  {
    hide Collapse, TrimLeftDashes, TrimRightDashes, IsSlugChar;
    var lower := ToLower(s);
    var b := "";
    var prevDash := false;
    assert b == TrimLeftDashes(Collapse("")) by { NothingCollapsed(); }
    for i := 0 to |lower|
      invariant b == TrimLeftDashes(Collapse(lower[..i]))
      invariant prevDash <==> b != "" && i > 0 && !IsSlugChar(lower[i - 1])
    {
      var r := lower[i];
      CollapseSnoc(lower[..i], r);
      assert lower[..i + 1] == lower[..i] + [r];
      TrimLeftSnoc(Collapse(lower[..i]), r);
      TrimLeftSnoc(Collapse(lower[..i]), '-');
      NoDashIsSlugChar();
      if IsSlugChar(r) {
        b := b + [r];
        prevDash := false;
      } else if !prevDash && |b| > 0 {
        b := b + "-";
        prevDash := true;
      }
    }
    assert lower[..|lower|] == lower;
    slug := TrimRightDashes(b);
  }

  lemma NothingCollapsed()
    ensures Collapse("") == "" && DropRun("") == "" && TrimLeftDashes("") == ""
  {
  }

  lemma NoDashIsSlugChar()
    ensures !IsSlugChar('-')
  {
  }

  // ----- the slug of an issue branch

  /** strings.LastIndex(s, "-"), -1 when there is none. */
  function LastDash(s: string): (i: int)
    ensures -1 <= i < |s| && (i >= 0 ==> s[i] == '-')
    ensures forall j :: i < j < |s| ==> s[j] != '-'
  {
    if s == "" then -1 else if s[|s| - 1] == '-' then |s| - 1 else LastDash(s[..|s| - 1])
  }

  function BranchPrefix(taskType: string): string {
    if taskType == "bug" || taskType == "fix" || taskType == "hotfix" then "fix"
    else if taskType == "chore" then "chore"
    else "feat"
  }

  /** The slug of IssueBranchName: at most 40 characters, cut at a dash when one is past the 20th. */
  method IssueBranchSlug(title: string) returns (slug: string)
    ensures IsSlug(slug) && slug <= Slugify(title) && |slug| <= 40
    ensures |Slugify(title)| <= 40 ==> slug == Slugify(title)
    ensures |Slugify(title)| > 40 ==>
              |slug| > 20 && (|slug| == 40 || Slugify(title)[|slug|] == '-')
              && (forall j :: |slug| < j < 40 ==> Slugify(title)[j] != '-')
              && (|slug| == 40 ==> forall j :: 20 < j < 40 ==> Slugify(title)[j] != '-')
  {
    hide Slugify, IsSlugChar;
    slug := Slugify(title);
    SlugifyIsSlug(title);
    if |slug| > 40 {
      slug := slug[..40];
      var last := LastDash(slug);
      if last > 20 {
        slug := slug[..last];
      }
    }
  }

  /** IssueBranchName */
  method IssueBranchName(number: nat, title: string, taskType: string) returns (branch: string)
    ensures exists slug :: IsSlug(slug) && branch == BranchPrefix(taskType) + "/issue-" + Decimal(number) + "-" + slug
              && slug <= Slugify(title) && |slug| <= 40 && (|Slugify(title)| > 40 ==> |slug| > 20)
              && (|Slugify(title)| <= 40 ==> slug == Slugify(title))
  {
    hide Slugify, IsSlug;
    var slug := IssueBranchSlug(title);
    branch := BranchPrefix(taskType) + "/issue-" + Decimal(number) + "-" + slug;
  }
}
