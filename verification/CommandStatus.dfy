/** Taking commands offline: hiding and disabling every decommissioned command and its subtree. */
module CommandStatus {
  import opened CommandTree

  /** Command name, or "parent child", to what would bring it back. */
  type Table = map<string, string>

  // ----- on trees

  function Disabled(t: Tree, path: string, reason: string): Tree {
    Node(t.use, Offline(path, reason), AnyArgs, true, DisabledAll(t.children, path, reason))
  }

  function DisabledAll(trees: seq<Tree>, path: string, reason: string): (r: seq<Tree>)
    ensures |r| == |trees|
  {
    if trees == [] then []
    else [Disabled(trees[0], path + " " + Name(trees[0].use), reason)] + DisabledAll(trees[1..], path, reason)
  }

  /** A subcommand of a command that stays: disabled when "parent child" is decommissioned. */
  function Judge(t: Tree, path: string, table: Table): Tree {
    if path in table then Disabled(t, path, table[path]) else t
  }

  function JudgeAll(trees: seq<Tree>, parent: string, table: Table): (r: seq<Tree>)
    ensures |r| == |trees|
  {
    if trees == [] then []
    else [Judge(trees[0], parent + " " + Name(trees[0].use), table)] + JudgeAll(trees[1..], parent, table)
  }

  /** A command of the top level. */
  function JudgeTop(t: Tree, table: Table): Tree {
    var name := Name(t.use);
    if name in table then Disabled(t, name, table[name])
    else t.(children := JudgeAll(t.children, name, table))
  }

  function JudgeTopAll(trees: seq<Tree>, table: Table): (r: seq<Tree>)
    ensures |r| == |trees|
  {
    if trees == [] then [] else [JudgeTop(trees[0], table)] + JudgeTopAll(trees[1..], table)
  }

  function Decommissioned(root: Tree, table: Table): Tree {
    root.(children := JudgeTopAll(root.children, table))
  }

  lemma {:induction false} DisabledAllAt(trees: seq<Tree>, path: string, reason: string, i: nat)
    requires i < |trees|
    ensures DisabledAll(trees, path, reason)[i] == Disabled(trees[i], path + " " + Name(trees[i].use), reason)
  {
    hide Disabled, Name;
    if i > 0 { DisabledAllAt(trees[1..], path, reason, i - 1); }
  }

  lemma {:induction false} JudgeAllAt(trees: seq<Tree>, parent: string, table: Table, i: nat)
    requires i < |trees|
    ensures JudgeAll(trees, parent, table)[i] == Judge(trees[i], parent + " " + Name(trees[i].use), table)
  {
    hide Judge, Name;
    if i > 0 { JudgeAllAt(trees[1..], parent, table, i - 1); }
  }

  lemma {:induction false} JudgeTopAllAt(trees: seq<Tree>, table: Table, i: nat)
    requires i < |trees|
    ensures JudgeTopAll(trees, table)[i] == JudgeTop(trees[i], table)
  {
    hide JudgeTop;
    if i > 0 { JudgeTopAllAt(trees[1..], table, i - 1); }
  }

  // ----- on the heap

  /** Objects of several commands, in one set. */
  ghost function Union(reprs: seq<set<object>>): set<object> {
    set i, o | 0 <= i < |reprs| && o in reprs[i] :: o
  }

  ghost predicate Apart(reprs: seq<set<object>>) {
    forall i, j :: 0 <= i < j < |reprs| ==> reprs[i] !! reprs[j]
  }

  /** Commands whose subtrees are these trees, on these objects. */
  ghost predicate Stands(subs: seq<Command>, reprs: seq<set<object>>, trees: seq<Tree>)
    reads subs, Union(reprs)
  {
    && |subs| == |reprs| == |trees|
    && forall i :: 0 <= i < |subs| ==> subs[i] in reprs[i] && subs[i].repr == reprs[i] && subs[i].tree == trees[i] && subs[i].Valid()
  }

  ghost function Reprs(c: Command): (reprs: seq<set<object>>)
    reads c, c.children
    ensures |reprs| == |c.children| && forall i :: 0 <= i < |reprs| ==> reprs[i] == c.children[i].repr
  {
    seq(|c.children|, i requires 0 <= i < |c.children| reads c, c.children => c.children[i].repr)
  }

  /** A valid command's children stand for its tree's children, apart from each other and from it. */
  lemma ChildrenStand(c: Command)
    requires c.Valid()
    ensures Stands(c.children, Reprs(c), c.tree.children) && Apart(Reprs(c))
    ensures c !in Union(Reprs(c)) && c in c.repr && Union(Reprs(c)) <= c.repr
  {
  }

  /** And the other way round. */
  lemma StandingIsValid(c: Command, reprs: seq<set<object>>)
    requires Stands(c.children, reprs, c.tree.children) && Apart(reprs)
    requires c !in Union(reprs) && c in c.repr && Union(reprs) <= c.repr
    requires c.tree.use == c.use && c.tree.run == c.run && c.tree.args == c.args && c.tree.hidden == c.hidden
    ensures c.Valid()
  {
    forall i | 0 <= i < |c.children| ensures c.children[i] in c.repr && c.children[i].repr <= c.repr && c !in c.children[i].repr {
      assert reprs[i] <= Union(reprs);
    }
  }

  /** disableSubtree */
  method DisableSubtree(c: Command, path: string, reason: string)
    requires c.Valid()
    modifies c.repr
    ensures c.Valid() && c.repr == old(c.repr)
    ensures c.tree == Disabled(old(c.tree), path, reason)
    decreases c.repr, 1
  {
    hide Name, Stands, Apart, Union, DisabledAll;
    ChildrenStand(c);
    ghost var reprs, kids := Reprs(c), c.tree.children;
    c.hidden := true;
    c.args := AnyArgs;
    c.run := Offline(path, reason);
    DisableChildren(c.children, path, reason, reprs, kids);
    c.tree := Node(c.use, Offline(path, reason), AnyArgs, true, DisabledAll(kids, path, reason));
    StandingIsValid(c, reprs);
  }

  /** The loop of disableSubtree over the subcommands. */
  method DisableChildren(subs: seq<Command>, path: string, reason: string, ghost reprs: seq<set<object>>, ghost kids: seq<Tree>)
    requires Stands(subs, reprs, kids) && Apart(reprs)
    modifies Union(reprs)
    ensures Stands(subs, reprs, DisabledAll(kids, path, reason))
    decreases Union(reprs), 4
  {
    hide Name, Disabled, DisabledAll, Stands, Apart;
    ghost var done := DisabledAll(kids, path, reason);
    assert |subs| == |kids| by { SameLengths(subs, reprs, kids); }
    assert kids == done[..0] + kids[0..];
    for i := 0 to |subs|
      invariant Stands(subs, reprs, done[..i] + kids[i..])
    {
      DisabledAllAt(kids, path, reason, i);
      ghost var trees := done[..i] + kids[i..];
      DisableOne(subs, i, path, reason, reprs, trees);
      assert trees[i := done[i]] == done[..i + 1] + kids[i + 1..];
    }
    assert done[..|subs|] + kids[|subs|..] == done;
  }

  lemma SameLengths(subs: seq<Command>, reprs: seq<set<object>>, trees: seq<Tree>)
    requires Stands(subs, reprs, trees)
    ensures |subs| == |reprs| == |trees|
  {
  }

  /** Disabling one subcommand leaves its siblings as they are. */
  method DisableOne(subs: seq<Command>, i: nat, path: string, reason: string, ghost reprs: seq<set<object>>, ghost trees: seq<Tree>)
    requires Stands(subs, reprs, trees) && Apart(reprs) && i < |subs|
    modifies Union(reprs)
    ensures Stands(subs, reprs, trees[i := Disabled(trees[i], path + " " + Name(trees[i].use), reason)])
    decreases Union(reprs), 3
  {
    hide Name, Disabled;
    assert reprs[i] <= Union(reprs);
    assert subs[i].use == trees[i].use;
    DisableAlone(subs, i, path + " " + Name(subs[i].use), reason, reprs, trees);
  }

  method DisableAlone(subs: seq<Command>, i: nat, path: string, reason: string, ghost reprs: seq<set<object>>, ghost trees: seq<Tree>)
    requires Stands(subs, reprs, trees) && Apart(reprs) && i < |subs|
    modifies reprs[i]
    ensures Stands(subs, reprs, trees[i := Disabled(trees[i], path, reason)])
    decreases reprs[i], 2
  {
    hide Disabled;
    label before:
    DisableSubtree(subs[i], path, reason);
    forall j | 0 <= j < |subs| && j != i ensures subs[j] in reprs[j] && subs[j].repr == reprs[j] && subs[j].tree == trees[j] && subs[j].Valid() {
      assert reprs[j] !! reprs[i];
      assert old@before(subs[j].Valid());
    }
  }

  /** applyDecommissions */
  method ApplyDecommissions(root: Command, table: Table)
    requires root.Valid()
    modifies root.repr
    ensures root.Valid() && root.repr == old(root.repr)
    ensures root.tree == Decommissioned(old(root.tree), table)
  {
    hide Name, Stands, Apart, Union, JudgeTopAll;
    ChildrenStand(root);
    ghost var reprs, kids := Reprs(root), root.tree.children;
    JudgeChildren(root.children, table, reprs, kids);
    root.tree := root.tree.(children := JudgeTopAll(kids, table));
    StandingIsValid(root, reprs);
  }

  /** The loop of applyDecommissions over the top-level commands. */
  method JudgeChildren(subs: seq<Command>, table: Table, ghost reprs: seq<set<object>>, ghost kids: seq<Tree>)
    requires Stands(subs, reprs, kids) && Apart(reprs)
    modifies Union(reprs)
    ensures Stands(subs, reprs, JudgeTopAll(kids, table))
  {
    hide JudgeTop, JudgeTopAll, Stands, Apart;
    ghost var done := JudgeTopAll(kids, table);
    assert |subs| == |kids| by { SameLengths(subs, reprs, kids); }
    assert kids == done[..0] + kids[0..];
    for i := 0 to |subs|
      invariant Stands(subs, reprs, done[..i] + kids[i..])
    {
      JudgeTopAllAt(kids, table, i);
      ghost var trees := done[..i] + kids[i..];
      JudgeOneTop(subs, i, table, reprs, trees);
      assert trees[i := done[i]] == done[..i + 1] + kids[i + 1..];
    }
    assert done[..|subs|] + kids[|subs|..] == done;
  }

  method JudgeOneTop(subs: seq<Command>, i: nat, table: Table, ghost reprs: seq<set<object>>, ghost trees: seq<Tree>)
    requires Stands(subs, reprs, trees) && Apart(reprs) && i < |subs|
    modifies Union(reprs)
    ensures Stands(subs, reprs, trees[i := JudgeTop(trees[i], table)])
  {
    hide JudgeTop;
    assert reprs[i] <= Union(reprs);
    label before:
    JudgeTopCommand(subs[i], table);
    forall j | 0 <= j < |subs| && j != i ensures subs[j] in reprs[j] && subs[j].repr == reprs[j] && subs[j].tree == trees[j] && subs[j].Valid() {
      assert reprs[j] !! reprs[i];
      assert old@before(subs[j].Valid());
    }
  }

  /** One top-level command: disabled with its subtree, or each of its subcommands judged. */
  method JudgeTopCommand(c: Command, table: Table)
    requires c.Valid()
    modifies c.repr
    ensures c.Valid() && c.repr == old(c.repr) && c.tree == JudgeTop(old(c.tree), table)
  {
    hide Name, Stands, Apart, Union, JudgeAll, Disabled;
    var name := Name(c.use);
    if name in table {
      DisableSubtree(c, name, table[name]);
      return;
    }
    ChildrenStand(c);
    ghost var reprs, kids := Reprs(c), c.tree.children;
    JudgeSubcommands(c.children, name, table, reprs, kids);
    c.tree := c.tree.(children := JudgeAll(kids, name, table));
    StandingIsValid(c, reprs);
  }

  method JudgeSubcommands(subs: seq<Command>, parent: string, table: Table, ghost reprs: seq<set<object>>, ghost kids: seq<Tree>)
    requires Stands(subs, reprs, kids) && Apart(reprs)
    modifies Union(reprs)
    ensures Stands(subs, reprs, JudgeAll(kids, parent, table))
  {
    hide Name, Judge, JudgeAll, Stands, Apart;
    ghost var done := JudgeAll(kids, parent, table);
    assert |subs| == |kids| by { SameLengths(subs, reprs, kids); }
    assert kids == done[..0] + kids[0..];
    for i := 0 to |subs|
      invariant Stands(subs, reprs, done[..i] + kids[i..])
    {
      JudgeAllAt(kids, parent, table, i);
      ghost var trees := done[..i] + kids[i..];
      assert trees[i] == kids[i];
      JudgeOneSub(subs, i, parent, table, reprs, trees);
      assert trees[i := done[i]] == done[..i + 1] + kids[i + 1..];
    }
    assert done[..|subs|] + kids[|subs|..] == done;
  }

  method JudgeOneSub(subs: seq<Command>, i: nat, parent: string, table: Table, ghost reprs: seq<set<object>>, ghost trees: seq<Tree>)
    requires Stands(subs, reprs, trees) && Apart(reprs) && i < |subs|
    modifies Union(reprs)
    ensures Stands(subs, reprs, trees[i := Judge(trees[i], parent + " " + Name(trees[i].use), table)])
  {
    hide Name, Disabled;
    assert subs[i].use == trees[i].use;
    var path := parent + " " + Name(subs[i].use);
    if path in table {
      DisableAt(subs, i, path, table[path], reprs, trees);
    } else {
      assert trees[i := trees[i]] == trees;
    }
  }

  method DisableAt(subs: seq<Command>, i: nat, path: string, reason: string, ghost reprs: seq<set<object>>, ghost trees: seq<Tree>)
    requires Stands(subs, reprs, trees) && Apart(reprs) && i < |subs|
    modifies Union(reprs)
    ensures Stands(subs, reprs, trees[i := Disabled(trees[i], path, reason)])
  {
    hide Disabled;
    assert reprs[i] <= Union(reprs);
    DisableAlone(subs, i, path, reason, reprs, trees);
  }

  // ----- a filter

  /** The paths of the runnable leaves below some commands, as lists of names. */
  function Paths(trees: seq<Tree>, above: seq<string>): seq<seq<string>> {
    if trees == [] then [] else PathsOf(trees[0], above) + Paths(trees[1..], above)
  }

  function PathsOf(t: Tree, above: seq<string>): seq<seq<string>> {
    if t.hidden || IsBuiltIn(Name(t.use)) then [] else
      var path := above + [Name(t.use)];
      (if IsLeaf(t) then [path] else []) + Paths(t.children, path)
  }

  function DotAll(path: seq<string>): string {
    if path == [] then "" else Dotted(DotAll(path[..|path| - 1]), path[|path| - 1])
  }

  function Keys(paths: seq<seq<string>>): seq<string> {
    if paths == [] then [] else [DotAll(paths[0])] + Keys(paths[1..])
  }

  lemma {:induction false} KeysConcat(a: seq<seq<string>>, b: seq<seq<string>>)
    ensures Keys(a + b) == Keys(a) + Keys(b)
  {
    hide DotAll;
    if a == [] {
      assert a + b == b;
    } else {
      assert (a + b)[1..] == a[1..] + b;
      KeysConcat(a[1..], b);
    }
  }

  /** The surface is the list of the paths, dotted. */
  lemma {:induction false} SurfaceIsPaths(trees: seq<Tree>, above: seq<string>)
    ensures Surface(trees, DotAll(above)) == Keys(Paths(trees, above))
    decreases trees
  {
    hide SurfaceOfTree, PathsOf, DotAll;
    if trees != [] {
      SurfaceIsPathsOf(trees[0], above);
      SurfaceIsPaths(trees[1..], above);
      KeysConcat(PathsOf(trees[0], above), Paths(trees[1..], above));
    }
  }

  lemma {:induction false} SurfaceIsPathsOf(t: Tree, above: seq<string>)
    ensures SurfaceOfTree(t, DotAll(above)) == Keys(PathsOf(t, above))
    decreases t
  {
    hide Surface, Paths, Name, IsBuiltIn;
    if !t.hidden && !IsBuiltIn(Name(t.use)) {
      var path := above + [Name(t.use)];
      assert path[..|path| - 1] == above;
      assert DotAll(path) == Dotted(DotAll(above), Name(t.use));
      SurfaceIsPaths(t.children, path);
      KeysConcat(if IsLeaf(t) then [path] else [], Paths(t.children, path));
      assert Keys([path][1..]) == [];
    }
  }

  /** A path under a decommissioned name or "parent child". */
  predicate IsOffline(path: seq<string>, table: Table) {
    path != [] && (path[0] in table || (|path| >= 2 && path[0] + " " + path[1] in table))
  }

  function Online(paths: seq<seq<string>>, table: Table): seq<seq<string>> {
    if paths == [] then [] else (if IsOffline(paths[0], table) then [] else [paths[0]]) + Online(paths[1..], table)
  }

  lemma {:induction false} OnlineConcat(a: seq<seq<string>>, b: seq<seq<string>>, table: Table)
    ensures Online(a + b, table) == Online(a, table) + Online(b, table)
  {
    hide IsOffline;
    if a == [] {
      assert a + b == b;
    } else {
      assert (a + b)[1..] == a[1..] + b;
      OnlineConcat(a[1..], b, table);
    }
  }

  /** All the paths below share a decided prefix: all stay, or none does. */
  lemma {:induction false} DecidedTogether(paths: seq<seq<string>>, above: seq<string>, table: Table)
    requires forall p :: p in paths ==> above <= p
    requires above != [] && (IsOffline(above, table) || |above| >= 2)
    ensures Online(paths, table) == if IsOffline(above, table) then [] else paths
  {
    if paths != [] {
      assert paths[0] in paths && above <= paths[0];
      assert forall p :: p in paths[1..] ==> p in paths;
      assert |above| >= 2 ==> paths[0][0] == above[0] && paths[0][1] == above[1];
      assert paths[0][0] == above[0];
      DecidedTogether(paths[1..], above, table);
    }
  }

  lemma {:induction false} PathsExtend(trees: seq<Tree>, above: seq<string>)
    ensures forall p :: p in Paths(trees, above) ==> above <= p && |p| > |above|
    decreases trees
  {
    hide PathsOf;
    if trees != [] {
      PathsOfExtend(trees[0], above);
      PathsExtend(trees[1..], above);
    }
  }

  lemma {:induction false} PathsOfExtend(t: Tree, above: seq<string>)
    ensures forall p :: p in PathsOf(t, above) ==> above + [Name(t.use)] <= p
    decreases t
  {
    hide Paths, Name;
    PathsExtend(t.children, above + [Name(t.use)]);
  }

  /** One subcommand: its paths stay or go as its own path says. */
  lemma JudgedPaths(t: Tree, top: string, table: Table)
    requires top !in table
    ensures PathsOf(Judge(t, top + " " + Name(t.use), table), [top]) == Online(PathsOf(t, [top]), table)
  {
    hide Name, Paths, IsBuiltIn;
    PathsOfExtend(t, [top]);
    var path := [top] + [Name(t.use)];
    assert IsOffline(path, table) <==> top + " " + Name(t.use) in table;
    DecidedTogether(PathsOf(t, [top]), path, table);
  }

  lemma {:induction false} JudgedAllPaths(trees: seq<Tree>, top: string, table: Table)
    requires top !in table
    ensures Paths(JudgeAll(trees, top, table), [top]) == Online(Paths(trees, [top]), table)
  {
    hide PathsOf, Judge, Name, Online;
    if trees == [] {
      NothingOnline(table);
    } else {
      JudgedPaths(trees[0], top, table);
      JudgedAllPaths(trees[1..], top, table);
      OnlineConcat(PathsOf(trees[0], [top]), Paths(trees[1..], [top]), table);
    }
  }

  lemma NothingOnline(table: Table)
    ensures Online([], table) == []
  {
  }

  lemma JudgedTopPaths(t: Tree, table: Table)
    ensures PathsOf(JudgeTop(t, table), []) == Online(PathsOf(t, []), table)
  {
    hide Name, Paths, IsBuiltIn, JudgeAll, Online;
    var name := Name(t.use);
    assert [] + [name] == [name];
    PathsOfExtend(t, []);
    if name in table {
      DecidedTogether(PathsOf(t, []), [name], table);
    } else {
      JudgedAllPaths(t.children, name, table);
      OnlineConcat(if IsLeaf(t) then [[name]] else [], Paths(t.children, [name]), table);
      NothingOnline(table);
      OnlyOnline(name, table);
    }
  }

  lemma OnlyOnline(name: string, table: Table)
    requires name !in table
    ensures Online([[name]], table) == [[name]]
  {
    assert Online([[name]][1..], table) == [];
  }

  /** Decommissioning is a filter on the surface: exactly the paths under an offline name go. */
  lemma {:induction false} DecommissioningFilters(trees: seq<Tree>, table: Table)
    ensures Paths(JudgeTopAll(trees, table), []) == Online(Paths(trees, []), table)
    ensures Surface(JudgeTopAll(trees, table), "") == Keys(Online(Paths(trees, []), table))
  {
    hide PathsOf, JudgeTop, Online, Surface, Keys;
    if trees == [] {
      NothingOnline(table);
    } else {
      JudgedTopPaths(trees[0], table);
      DecommissioningFilters(trees[1..], table);
      OnlineConcat(PathsOf(trees[0], []), Paths(trees[1..], []), table);
    }
    assert DotAll([]) == "";
    SurfaceIsPaths(JudgeTopAll(trees, table), []);
  }

  // ----- every node of a disabled subtree answers offline

  /** Hidden, taking any arguments, and failing with its own path. */
  predicate AnswersOffline(t: Tree, path: string, reason: string) {
    && t.hidden && t.args == AnyArgs && t.run == Offline(path, reason)
    && AllAnswerOffline(t.children, path, reason)
  }

  predicate AllAnswerOffline(trees: seq<Tree>, path: string, reason: string) {
    trees == [] || (AnswersOffline(trees[0], path + " " + Name(trees[0].use), reason) && AllAnswerOffline(trees[1..], path, reason))
  }

  lemma {:induction false} DisabledAnswersOffline(t: Tree, path: string, reason: string)
    ensures AnswersOffline(Disabled(t, path, reason), path, reason)
    decreases t
  {
    hide Name, AllAnswerOffline, DisabledAll;
    DisabledAllAnswerOffline(t.children, path, reason);
  }

  lemma {:induction false} DisabledAllAnswerOffline(trees: seq<Tree>, path: string, reason: string)
    ensures AllAnswerOffline(DisabledAll(trees, path, reason), path, reason)
    decreases trees
  {
    hide Name, AnswersOffline;
    if trees != [] {
      DisabledAnswersOffline(trees[0], path + " " + Name(trees[0].use), reason);
      DisabledAllAnswerOffline(trees[1..], path, reason);
    }
  }

  // ----- twice is once

  lemma {:induction false} DisabledTwice(t: Tree, path: string, reason: string)
    ensures Disabled(Disabled(t, path, reason), path, reason) == Disabled(t, path, reason)
    decreases t
  {
    hide Name, DisabledAll;
    DisabledAllTwice(t.children, path, reason);
  }

  lemma {:induction false} DisabledAllTwice(trees: seq<Tree>, path: string, reason: string)
    ensures DisabledAll(DisabledAll(trees, path, reason), path, reason) == DisabledAll(trees, path, reason)
    decreases trees
  {
    hide Name;
    if trees != [] {
      DisabledTwice(trees[0], path + " " + Name(trees[0].use), reason);
      DisabledAllTwice(trees[1..], path, reason);
    }
  }

  lemma {:induction false} JudgeAllTwice(trees: seq<Tree>, parent: string, table: Table)
    ensures JudgeAll(JudgeAll(trees, parent, table), parent, table) == JudgeAll(trees, parent, table)
  {
    hide Name, DisabledAll;
    if trees != [] {
      var path := parent + " " + Name(trees[0].use);
      if path in table { DisabledTwice(trees[0], path, table[path]); }
      JudgeAllTwice(trees[1..], parent, table);
    }
  }

  lemma {:induction false} JudgeTopAllTwice(trees: seq<Tree>, table: Table)
    ensures JudgeTopAll(JudgeTopAll(trees, table), table) == JudgeTopAll(trees, table)
  {
    hide Name, DisabledAll, JudgeAll;
    if trees != [] {
      var name := Name(trees[0].use);
      if name in table { DisabledTwice(trees[0], name, table[name]); } else { JudgeAllTwice(trees[0].children, name, table); }
      JudgeTopAllTwice(trees[1..], table);
    }
  }

  /** Applying the decommissions twice equals applying them once. */
  lemma DecommissionedTwice(root: Tree, table: Table)
    ensures Decommissioned(Decommissioned(root, table), table) == Decommissioned(root, table)
  {
    JudgeTopAllTwice(root.children, table);
  }
}
