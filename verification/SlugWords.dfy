/** A slug is the words of its title, in lower case, with dashes between them. */
module SlugWords {
  import opened Slugs

  /** An ASCII letter or digit. */
  predicate IsAlnum(c: char) {
    'a' <= c <= 'z' || 'A' <= c <= 'Z' || '0' <= c <= '9'
  }

  /** The longest runs of letters and digits, in order. */
  function Words(s: string): (words: seq<string>)
    ensures s != "" && IsAlnum(s[0]) ==> words != []
  {
    if s == "" then []
    else if !IsAlnum(s[0]) then Words(s[1..])
    else if |s| > 1 && IsAlnum(s[1]) then
      var rest := Words(s[1..]);
      [[s[0]] + rest[0]] + rest[1..]
    else [[s[0]]] + Words(s[1..])
  }

  function Dashed(words: seq<string>): string {
    if words == [] then "" else if |words| == 1 then words[0] else words[0] + "-" + Dashed(words[1..])
  }

  lemma LowerAlnum(c: char)
    ensures IsAlnum(LowerChar(c)) <==> IsAlnum(c)
    ensures IsSlugChar(LowerChar(c)) <==> IsAlnum(c)
    ensures LowerChar(LowerChar(c)) == LowerChar(c) && LowerChar('-') == '-'
  {
  }

  /** A text in lower case. */
  predicate IsLower(s: string) {
    forall c :: c in s ==> (IsSlugChar(c) <==> IsAlnum(c))
  }

  lemma {:induction false} TrimRightBehind(a: string, b: string)
    requires TrimRightDashes(b) != ""
    ensures TrimRightDashes(a + b) == a + TrimRightDashes(b)
  {
    assert (a + b)[|a + b| - 1] == b[|b| - 1];
    if b[|b| - 1] == '-' {
      TrimRightBehind(a, b[..|b| - 1]);
      assert (a + b)[..|a + b| - 1] == a + b[..|b| - 1];
    }
  }

  lemma {:induction false} TrimRightAll(c: char, b: string)
    requires c != '-' && TrimRightDashes(b) == ""
    ensures TrimRightDashes([c] + b) == [c]
  {
    if b == "" {
      assert [c] + b == [c];
    } else {
      TrimRightAll(c, b[..|b| - 1]);
      assert ([c] + b)[..|b|] == [c] + b[..|b| - 1] && ([c] + b)[|b|] == b[|b| - 1];
    }
  }

  /** A character that is no dash stays in front. */
  lemma TrimRightCons(c: char, b: string)
    requires c != '-'
    ensures TrimRightDashes([c] + b) == [c] + TrimRightDashes(b)
  {
    hide TrimRightDashes;
    if TrimRightDashes(b) == "" {
      TrimRightAll(c, b);
    } else {
      TrimRightBehind([c], b);
    }
  }

  lemma {:induction false} DroppedRun(s: string)
    requires IsLower(s)
    ensures Words(DropRun(s)) == Words(s) && IsLower(DropRun(s)) && |DropRun(s)| <= |s|
    ensures DropRun(s) != "" ==> IsSlugChar(DropRun(s)[0])
  {
    if s != "" && !IsSlugChar(s[0]) {
      assert s[0] in s;
      DroppedRun(s[1..]);
    }
  }

  lemma DashedMore(word: string, words: seq<string>)
    requires words != []
    ensures Dashed([word] + words) == word + "-" + Dashed(words)
  {
    assert ([word] + words)[1..] == words;
  }

  lemma Regroup(a: string, b: string, c: string)
    ensures a + (b + c) == a + b + c
  {
  }

  /** A letter in front of the first word. */
  lemma DashedCons(c: char, words: seq<string>)
    requires words != []
    ensures Dashed([[c] + words[0]] + words[1..]) == [c] + Dashed(words)
  {
    hide Dashed;
    var w, rest := words[0], words[1..];
    if rest == [] {
      OneWord(w);
      OneWord([c] + w);
      assert words == [w] && [[c] + w] + rest == [[c] + w];
    } else {
      assert words == [w] + rest;
      DashedMore(w, rest);
      DashedMore([c] + w, rest);
      Regroup([c], w + "-", Dashed(rest));
      Regroup([c], w, "-");
    }
  }

  /** From a slug character on. */
  lemma {:induction false} CollapsedWords(s: string)
    requires IsLower(s) && s != "" && IsSlugChar(s[0])
    ensures TrimRightDashes(Collapse(s)) == Dashed(Words(s)) != ""
    decreases |s|
  {
    var c, t := s[0], s[1..];
    assert s == [c] + t && c in s && forall x :: x in t ==> x in s;
    CollapseCons(c, t);
    NoDashIsSlugChar();
    TrimRightCons(c, Collapse(t));
    DroppedRun(t);
    hide Collapse, TrimRightDashes, Dashed, DropRun, IsLower;
    if t == "" {
      NothingLeft();
      assert Words(s) == [[c]] + [];
      OneWord([c]);
    } else if IsSlugChar(t[0]) {
      assert t[0] in s && IsAlnum(s[1]) by { SlugIsAlnum(t[0]); }
      CollapsedWords(t);
      DashedCons(c, Words(t));
    } else {
      CollapseHead(t);
      var rest := DropRun(t);
      assert !IsAlnum(s[1]) by { NoSlugNoAlnum(s, 1); }
      if rest == "" {
        NothingLeft();
        OneWord([c]);
        assert Words(s) == [[c]] + [];
      } else {
        CollapsedWords(rest);
        TrimRightBehind("-", Collapse(rest));
        DashedMore([c], Words(rest));
        Regroup([c], "-", Dashed(Words(rest)));
      }
    }
  }

  lemma SlugIsAlnum(c: char)
    ensures IsSlugChar(c) ==> IsAlnum(c)
  {
  }

  lemma NoSlugNoAlnum(s: string, i: nat)
    requires IsLower(s) && i < |s| && !IsSlugChar(s[i])
    ensures !IsAlnum(s[i])
  {
    assert s[i] in s;
  }

  lemma NothingLeft()
    ensures Collapse("") == "" && TrimRightDashes("") == "" && TrimRightDashes("-") == "" && Words("") == []
  {
    assert "-"[..0] == "";
  }

  lemma OneWord(w: string)
    ensures Dashed([w]) == w
  {
  }

  /** Where other characters stand first. */
  lemma CollapseHead(t: string)
    requires t != "" && !IsSlugChar(t[0])
    ensures Collapse(t) == if DropRun(t) == "" then "-" else "-" + Collapse(DropRun(t))
  {
    assert DropRun(t) == DropRun(t[1..]);
  }

  lemma {:induction false} TrimLeftStops(s: string)
    requires s != "" && IsSlugChar(s[0])
    ensures TrimLeftDashes(s) == s && TrimLeftDashes("-" + s) == s && TrimLeftDashes("-") == ""
  {
    NoDashIsSlugChar();
    assert ("-" + s)[1..] == s && "-"[1..] == "";
  }

  lemma SlugOfLower(s: string)
    requires IsLower(s)
    ensures TrimRightDashes(TrimLeftDashes(Collapse(s))) == Dashed(Words(s))
  {
    var rest := DropRun(s);
    DroppedRun(s);
    NothingLeft();
    if rest == "" {
      if s != "" { CollapseHead(s); }
      assert TrimLeftDashes("-") == "" by { assert "-"[1..] == ""; }
      assert Dashed([]) == "";
    } else {
      CollapsedWords(rest);
      CollapseIsCollapsed(rest);
      hide Collapse, TrimLeftDashes, TrimRightDashes, Dashed, Words;
      TrimLeftStops(Collapse(rest));
      if rest != s {
        CollapseHead(s);
      }
    }
  }

  lemma {:induction false} WordsOfLower(s: string)
    ensures Dashed(Words(ToLower(s))) == ToLower(Dashed(Words(s))) && |Words(ToLower(s))| == |Words(s)|
  {
    if s != "" {
      var c, t := s[0], s[1..];
      LowerAlnum(c);
      if t != "" { LowerAlnum(t[0]); }
      LowerCons(c, t);
      WordsOfLower(t);
      assert s == [c] + t && ToLower(s)[1..] == ToLower(t);
      if IsAlnum(c) {
        if t != "" && IsAlnum(t[0]) {
          DashedCons(c, Words(t));
          DashedCons(LowerChar(c), Words(ToLower(t)));
          hide Dashed, LowerChar, ToLower, IsAlnum;
          LowerCons(c, Dashed(Words(t)));
        } else if Words(t) == [] {
          hide LowerChar, IsAlnum;
          assert [[c]] + [] == [[c]] && [[LowerChar(c)]] + [] == [[LowerChar(c)]];
          OneWord([c]);
          OneWord([LowerChar(c)]);
        } else {
          DashedMore([c], Words(t));
          DashedMore([LowerChar(c)], Words(ToLower(t)));
          LowerAlnum('-');
          hide Dashed, LowerChar, ToLower, IsAlnum;
          LowerCons('-', Dashed(Words(t)));
          LowerCons(c, "-" + Dashed(Words(t)));
          Regroup([c], "-", Dashed(Words(t)));
          Regroup([LowerChar(c)], "-", ToLower(Dashed(Words(t))));
        }
      }
    }
  }

  lemma LowerCons(c: char, s: string)
    ensures ToLower([c] + s) == [LowerChar(c)] + ToLower(s)
    ensures ToLower("") == ""
  {
  }

  /** The slug of a title is its words in lower case, joined by dashes. */
  lemma SlugIsWords(title: string)
    ensures Slugify(title) == ToLower(Dashed(Words(title)))
  {
    var lower := ToLower(title);
    forall c | c in lower ensures IsSlugChar(c) <==> IsAlnum(c) {
      var i :| 0 <= i < |lower| && lower[i] == c;
      LowerAlnum(title[i]);
    }
    SlugOfLower(lower);
    WordsOfLower(title);
  }

  /** The prefix of an issue's branch: "fix" for bugs, fixes and hotfixes, "chore" for chores, and "feat" for everything else. */
  lemma PrefixByType(taskType: string)
    ensures BranchPrefix(taskType) == "fix" <==> taskType in {"bug", "fix", "hotfix"}
    ensures BranchPrefix(taskType) == "chore" <==> taskType == "chore"
    ensures BranchPrefix(taskType) == "feat" <==> taskType !in {"bug", "fix", "hotfix", "chore"}
  {
    assert "fix"[0] == 'f' && "chore"[0] == 'c' && "feat"[1] == 'e' && "fix"[1] == 'i';
  }
}
