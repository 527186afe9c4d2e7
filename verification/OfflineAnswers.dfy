/** What every command answers after decommissioning, found by walking its names. */
module OfflineAnswers {
  import opened CommandTree
  import opened CommandStatus

  /** Walking down these names, hidden or not, ends at this command. */
  predicate Reaches(trees: seq<Tree>, names: seq<string>, t: Tree)
    decreases |names|
  {
    names != [] && exists x :: x in trees && ReachesFrom(x, names, t)
  }

  predicate ReachesFrom(x: Tree, names: seq<string>, t: Tree)
    requires names != []
    decreases |names|, 0
  {
    Name(x.use) == names[0] && if |names| == 1 then x == t else Reaches(x.children, names[1..], t)
  }

  /** A path followed by more names, with blanks between them. */
  function Under(path: string, names: seq<string>): string
    decreases |names|
  {
    if names == [] then path else Under(path + " " + names[0], names[1..])
  }

  lemma {:induction false} DisabledIn(trees: seq<Tree>, path: string, reason: string, x: Tree)
    ensures x in DisabledAll(trees, path, reason) <==> exists t :: t in trees && x == Disabled(t, path + " " + Name(t.use), reason)
  {
    hide Disabled, Name;
    if trees != [] {
      DisabledIn(trees[1..], path, reason, x);
      assert forall t :: t in trees <==> t == trees[0] || t in trees[1..];
    }
  }

  /** Below a disabled command the same commands are reached, each disabled with its path. */
  lemma {:induction false} DisabledReaches(trees: seq<Tree>, path: string, reason: string, names: seq<string>, d: Tree)
    requires names != []
    ensures Reaches(DisabledAll(trees, path, reason), names, d) <==>
            exists t :: Reaches(trees, names, t) && d == Disabled(t, Under(path, names), reason)
    decreases |names|
  {
    hide DisabledAll, Name;
    var here := path + " " + names[0];
    forall t ensures ReachesFrom(Disabled(t, here, reason), names, d) <==>
                     exists u :: ReachesFrom(t, names, u) && d == Disabled(u, Under(path, names), reason)
    {
      DisabledReachesFrom(t, path, reason, names, d);
    }
    hide Disabled, ReachesFrom;
    if x :| x in DisabledAll(trees, path, reason) && ReachesFrom(x, names, d) {
      DisabledIn(trees, path, reason, x);
      var t :| t in trees && x == Disabled(t, path + " " + Name(t.use), reason);
      SameName(t, path + " " + Name(t.use), reason, names, d);
      var u :| ReachesFrom(t, names, u) && d == Disabled(u, Under(path, names), reason);
      assert Reaches(trees, names, u);
    }
    if u :| Reaches(trees, names, u) && d == Disabled(u, Under(path, names), reason) {
      var t :| t in trees && ReachesFrom(t, names, u);
      var x := Disabled(t, here, reason);
      assert Name(t.use) == names[0] by { StartsWith(t, names, u); }
      DisabledIn(trees, path, reason, x);
      assert ReachesFrom(x, names, d);
    }
  }

  lemma StartsWith(t: Tree, names: seq<string>, u: Tree)
    requires names != [] && ReachesFrom(t, names, u)
    ensures Name(t.use) == names[0]
  {
  }

  lemma SameName(t: Tree, path: string, reason: string, names: seq<string>, d: Tree)
    requires names != [] && ReachesFrom(Disabled(t, path, reason), names, d)
    ensures Name(t.use) == names[0]
  {
  }

  lemma {:induction false} DisabledReachesFrom(t: Tree, path: string, reason: string, names: seq<string>, d: Tree)
    requires names != []
    ensures ReachesFrom(Disabled(t, path + " " + names[0], reason), names, d) <==>
            exists u :: ReachesFrom(t, names, u) && d == Disabled(u, Under(path, names), reason)
    decreases |names|, 0
  {
    hide DisabledAll, Name;
    var here := path + " " + names[0];
    var x := Disabled(t, here, reason);
    if |names| == 1 {
      assert names[1..] == [] && Under(path, names) == Under(here, []) == here;
      if ReachesFrom(x, names, d) {
        assert ReachesFrom(t, names, t) && d == Disabled(t, Under(path, names), reason);
      }
      if u :| ReachesFrom(t, names, u) && d == Disabled(u, Under(path, names), reason) {
        assert u == t && d == x && x.use == t.use;
        assert ReachesFrom(x, names, d);
      }
    } else {
      DisabledReaches(t.children, here, reason, names[1..], d);
      assert Under(path, names) == Under(here, names[1..]);
      FromBelow(x, names, d);
      assert x.children == DisabledAll(t.children, here, reason) && x.use == t.use;
      hide Under, Disabled, Reaches, ReachesFrom;
      if ReachesFrom(x, names, d) {
        var u :| Reaches(t.children, names[1..], u) && d == Disabled(u, Under(here, names[1..]), reason);
        FromBelow(t, names, u);
      }
      if u :| ReachesFrom(t, names, u) && d == Disabled(u, Under(path, names), reason) {
        FromBelow(t, names, u);
      }
    }
  }

  /** The reason why a path is offline: its command's, or its "parent child"'s. */
  function Reason(names: seq<string>, table: Table): string
    requires IsOffline(names, table)
  {
    if names[0] in table then table[names[0]] else table[names[0] + " " + names[1]]
  }

  /** What becomes of a command at a path: offline with its path and the reason, or as before; its name and its subcommands stay. */
  ghost predicate Answers(was: Tree, now: Tree, names: seq<string>, table: Table)
    requires names != []
  {
    && now.use == was.use && |now.children| == |was.children|
    && if IsOffline(names, table)
       then now.hidden && now.args == AnyArgs && now.run == Offline(Under(names[0], names[1..]), Reason(names, table))
       else now.hidden == was.hidden && now.args == was.args && now.run == was.run
  }

  /** The same commands are reached by the same names, each with an answer. */
  ghost predicate SameReach(before: seq<Tree>, after: seq<Tree>, names: seq<string>, full: seq<string>, table: Table)
    requires full != []
  {
    && (forall t :: Reaches(before, names, t) ==> exists d :: Reaches(after, names, d) && Answers(t, d, full, table))
    && (forall d :: Reaches(after, names, d) ==> exists t :: Reaches(before, names, t) && Answers(t, d, full, table))
  }

  /** Below a command that goes offline. */
  lemma OfflineBelow(trees: seq<Tree>, path: string, reason: string, names: seq<string>, full: seq<string>, table: Table)
    requires names != [] && full != [] && IsOffline(full, table) && Reason(full, table) == reason
    requires Under(path, names) == Under(full[0], full[1..])
    ensures SameReach(trees, DisabledAll(trees, path, reason), names, full, table)
  {
    hide DisabledAll, Under, IsOffline, Reason, Reaches;
    var after := DisabledAll(trees, path, reason);
    forall d ensures Reaches(after, names, d) <==> exists t :: Reaches(trees, names, t) && d == Disabled(t, Under(path, names), reason) {
      DisabledReaches(trees, path, reason, names, d);
    }
    forall t ensures Answers(t, Disabled(t, Under(path, names), reason), full, table) {
      DisabledSize(t.children, Under(path, names), reason);
    }
    forall t | Reaches(trees, names, t) ensures exists d :: Reaches(after, names, d) && Answers(t, d, full, table) {
      assert Reaches(after, names, Disabled(t, Under(path, names), reason));
    }
  }

  lemma DisabledSize(trees: seq<Tree>, path: string, reason: string)
    ensures |DisabledAll(trees, path, reason)| == |trees|
  {
  }

  lemma {:induction false} JudgedIn(trees: seq<Tree>, parent: string, table: Table, x: Tree)
    ensures x in JudgeAll(trees, parent, table) <==> exists t :: t in trees && x == Judge(t, parent + " " + Name(t.use), table)
  {
    hide Judge, Name;
    if trees != [] {
      JudgedIn(trees[1..], parent, table, x);
      assert forall t :: t in trees <==> t == trees[0] || t in trees[1..];
    }
  }

  lemma {:induction false} JudgedTopIn(trees: seq<Tree>, table: Table, x: Tree)
    ensures x in JudgeTopAll(trees, table) <==> exists t :: t in trees && x == JudgeTop(t, table)
  {
    hide JudgeTop;
    if trees != [] {
      JudgedTopIn(trees[1..], table, x);
      assert forall t :: t in trees <==> t == trees[0] || t in trees[1..];
    }
  }

  /** A tree and what it becomes, when both are looked at from the same names. */
  ghost predicate SameReachFrom(x: Tree, y: Tree, names: seq<string>, full: seq<string>, table: Table)
    requires names != [] && full != []
  {
    && (forall t :: ReachesFrom(x, names, t) ==> exists d :: ReachesFrom(y, names, d) && Answers(t, d, full, table))
    && (forall d :: ReachesFrom(y, names, d) ==> exists t :: ReachesFrom(x, names, t) && Answers(t, d, full, table))
  }

  lemma AnswerOf(x: Tree, y: Tree, names: seq<string>, full: seq<string>, table: Table, t: Tree) returns (d: Tree)
    requires names != [] && full != [] && SameReachFrom(x, y, names, full, table) && ReachesFrom(x, names, t)
    ensures ReachesFrom(y, names, d) && Answers(t, d, full, table)
  {
    hide ReachesFrom, Answers;
    d :| ReachesFrom(y, names, d) && Answers(t, d, full, table);
  }

  lemma AnswerTo(x: Tree, y: Tree, names: seq<string>, full: seq<string>, table: Table, d: Tree) returns (t: Tree)
    requires names != [] && full != [] && SameReachFrom(x, y, names, full, table) && ReachesFrom(y, names, d)
    ensures ReachesFrom(x, names, t) && Answers(t, d, full, table)
  {
    hide ReachesFrom, Answers;
    t :| ReachesFrom(x, names, t) && Answers(t, d, full, table);
  }

  lemma ReachedAfter(before: seq<Tree>, after: seq<Tree>, names: seq<string>, full: seq<string>, table: Table, t: Tree) returns (d: Tree)
    requires names != [] && full != [] && Reaches(before, names, t)
    requires forall x :: x in before ==> exists y :: y in after && SameReachFrom(x, y, names, full, table)
    ensures Reaches(after, names, d) && Answers(t, d, full, table)
  {
    hide ReachesFrom, Answers, SameReachFrom;
    var x :| x in before && ReachesFrom(x, names, t);
    var y :| y in after && SameReachFrom(x, y, names, full, table);
    d := AnswerOf(x, y, names, full, table, t);
  }

  lemma ReachedBefore(before: seq<Tree>, after: seq<Tree>, names: seq<string>, full: seq<string>, table: Table, d: Tree) returns (t: Tree)
    requires names != [] && full != [] && Reaches(after, names, d)
    requires forall y :: y in after ==> exists x :: x in before && SameReachFrom(x, y, names, full, table)
    ensures Reaches(before, names, t) && Answers(t, d, full, table)
  {
    hide ReachesFrom, Answers, SameReachFrom;
    var y :| y in after && ReachesFrom(y, names, d);
    var x :| x in before && SameReachFrom(x, y, names, full, table);
    t := AnswerTo(x, y, names, full, table, d);
  }

  /** Each tree becomes one that is reached by the same names: so does a list of them. */
  lemma EachReaches(before: seq<Tree>, after: seq<Tree>, names: seq<string>, full: seq<string>, table: Table)
    requires names != [] && full != []
    requires forall x :: x in before ==> exists y :: y in after && SameReachFrom(x, y, names, full, table)
    requires forall y :: y in after ==> exists x :: x in before && SameReachFrom(x, y, names, full, table)
    ensures SameReach(before, after, names, full, table)
  {
    hide Reaches, Answers, SameReachFrom;
    forall t | Reaches(before, names, t) ensures exists d :: Reaches(after, names, d) && Answers(t, d, full, table) {
      var d := ReachedAfter(before, after, names, full, table, t);
    }
    forall d | Reaches(after, names, d) ensures exists t :: Reaches(before, names, t) && Answers(t, d, full, table) {
      var t := ReachedBefore(before, after, names, full, table, d);
    }
  }

  /** A tree that stays as it is. */
  lemma StaysSame(t: Tree, names: seq<string>, full: seq<string>, table: Table)
    requires names != [] && full != [] && (Name(t.use) == names[0] ==> !IsOffline(full, table))
    ensures SameReachFrom(t, t, names, full, table)
  {
    hide Name, IsOffline, Reaches;
    forall u | ReachesFrom(t, names, u) ensures Answers(u, u, full, table) {}
  }

  /** A tree that is disabled at a path. */
  lemma DisabledFrom(t: Tree, path: string, reason: string, names: seq<string>, full: seq<string>, table: Table)
    requires names != [] && full != []
    requires Name(t.use) == names[0] ==>
               IsOffline(full, table) && Reason(full, table) == reason && Under(path, names[1..]) == Under(full[0], full[1..])
    ensures SameReachFrom(t, Disabled(t, path, reason), names, full, table)
  {
    hide Name, IsOffline, Reason, Reaches, DisabledAll;
    var y := Disabled(t, path, reason);
    DisabledSize(t.children, path, reason);
    if |names| == 1 {
      assert names[1..] == [] && Under(path, []) == path;
      HereSame(t, y, names, full, table);
    } else {
      if Name(t.use) == names[0] {
        OfflineBelow(t.children, path, reason, names[1..], full, table);
      }
      BelowSame(t, y, names, full, table);
    }
  }

  lemma JudgedSize(trees: seq<Tree>, parent: string, table: Table)
    ensures |JudgeAll(trees, parent, table)| == |trees|
  {
  }

  /** A subcommand of a command that stays. */
  lemma JudgedFrom(t: Tree, top: string, names: seq<string>, table: Table)
    requires names != [] && top !in table
    ensures SameReachFrom(t, Judge(t, top + " " + Name(t.use), table), names, [top] + names, table)
  {
    var full, path := [top] + names, top + " " + Name(t.use);
    assert full[1..] == names;
    assert Under(top, names) == Under(top + " " + names[0], names[1..]);
    hide Name, Under, Disabled, SameReachFrom;
    if path in table {
      DisabledFrom(t, path, table[path], names, full, table);
    } else {
      StaysSame(t, names, full, table);
    }
  }

  /** A top-level command. */
  lemma JudgedTopFrom(t: Tree, names: seq<string>, table: Table)
    requires names != []
    ensures SameReachFrom(t, JudgeTop(t, table), names, names, table)
  {
    var top := Name(t.use);
    hide Name, Under, Disabled, Judge, Reaches;
    if top in table {
      DisabledFrom(t, top, table[top], names, names, table);
    } else if top == names[0] {
      if |names| == 1 {
        JudgedSize(t.children, top, table);
        HereSame(t, JudgeTop(t, table), names, names, table);
      } else {
        var rest := names[1..];
        assert [top] + rest == names;
        forall x: Tree ensures SameReachFrom(x, Judge(x, top + " " + Name(x.use), table), rest, names, table) { JudgedFrom(x, top, rest, table); }
        var after := JudgeAll(t.children, top, table);
        hide SameReachFrom, IsOffline, JudgeAll;
        forall x | x in t.children ensures exists y :: y in after && SameReachFrom(x, y, rest, names, table) {
          JudgedIn(t.children, top, table, Judge(x, top + " " + Name(x.use), table));
        }
        forall y | y in after ensures exists x :: x in t.children && SameReachFrom(x, y, rest, names, table) {
          JudgedIn(t.children, top, table, y);
        }
        EachReaches(t.children, after, rest, names, table);
        assert JudgeTop(t, table) == t.(children := after);
        BelowSame(t, JudgeTop(t, table), names, names, table);
      }
    } else {
      NeitherReached(t, JudgeTop(t, table), names, names, table);
    }
  }

  lemma NeitherReached(x: Tree, y: Tree, names: seq<string>, full: seq<string>, table: Table)
    requires names != [] && full != [] && Name(x.use) == Name(y.use) != names[0]
    ensures SameReachFrom(x, y, names, full, table)
  {
  }

  lemma FromBelow(x: Tree, names: seq<string>, t: Tree)
    requires |names| > 1
    ensures ReachesFrom(x, names, t) <==> Name(x.use) == names[0] && Reaches(x.children, names[1..], t)
  {
  }

  /** What is reached below two trees of the same name. */
  lemma BelowSame(x: Tree, y: Tree, names: seq<string>, full: seq<string>, table: Table)
    requires |names| > 1 && full != [] && Name(x.use) == Name(y.use)
    requires Name(x.use) == names[0] ==> SameReach(x.children, y.children, names[1..], full, table)
    ensures SameReachFrom(x, y, names, full, table)
  {
    hide Name, Reaches, Answers, ReachesFrom, SameReach;
    forall t | ReachesFrom(x, names, t) ensures exists d :: ReachesFrom(y, names, d) && Answers(t, d, full, table) {
      FromBelow(x, names, t);
      var d := AnswerBelow(x.children, y.children, names[1..], full, table, t);
      FromBelow(y, names, d);
    }
    forall d | ReachesFrom(y, names, d) ensures exists t :: ReachesFrom(x, names, t) && Answers(t, d, full, table) {
      FromBelow(y, names, d);
      var t := AnsweredBelow(x.children, y.children, names[1..], full, table, d);
      FromBelow(x, names, t);
    }
  }

  lemma AnswerBelow(before: seq<Tree>, after: seq<Tree>, names: seq<string>, full: seq<string>, table: Table, t: Tree) returns (d: Tree)
    requires full != [] && SameReach(before, after, names, full, table) && Reaches(before, names, t)
    ensures Reaches(after, names, d) && Answers(t, d, full, table)
  {
    hide Reaches, Answers;
    d :| Reaches(after, names, d) && Answers(t, d, full, table);
  }

  lemma AnsweredBelow(before: seq<Tree>, after: seq<Tree>, names: seq<string>, full: seq<string>, table: Table, d: Tree) returns (t: Tree)
    requires full != [] && SameReach(before, after, names, full, table) && Reaches(after, names, d)
    ensures Reaches(before, names, t) && Answers(t, d, full, table)
  {
    hide Reaches, Answers;
    t :| Reaches(before, names, t) && Answers(t, d, full, table);
  }

  /** What is reached at two trees themselves. */
  lemma HereSame(x: Tree, y: Tree, names: seq<string>, full: seq<string>, table: Table)
    requires |names| == 1 && full != [] && Name(x.use) == Name(y.use)
    requires Name(x.use) == names[0] ==> Answers(x, y, full, table)
    ensures SameReachFrom(x, y, names, full, table)
  {
    hide Name, Answers;
    if Name(x.use) == names[0] {
      assert ReachesFrom(x, names, x) && ReachesFrom(y, names, y);
    }
  }

  /**
   * Decommissioning, command by command: walking the same names leads to the same commands before and after; those under an
   * offline name or "parent child" answer offline, with their own path and the reason given there, and the others as before.
   */
  lemma CommandsAnswer(trees: seq<Tree>, table: Table, names: seq<string>)
    requires names != []
    ensures SameReach(trees, JudgeTopAll(trees, table), names, names, table)
  {
    var after := JudgeTopAll(trees, table);
    hide SameReachFrom, JudgeTop, JudgeTopAll;
    forall x ensures SameReachFrom(x, JudgeTop(x, table), names, names, table) { JudgedTopFrom(x, names, table); }
    forall x | x in trees ensures exists y :: y in after && SameReachFrom(x, y, names, names, table) {
      JudgedTopIn(trees, table, JudgeTop(x, table));
    }
    forall y | y in after ensures exists x :: x in trees && SameReachFrom(x, y, names, names, table) {
      JudgedTopIn(trees, table, y);
    }
    EachReaches(trees, after, names, names, table);
  }
}
