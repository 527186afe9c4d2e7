/** A commit graph: which commits are behind which, merge bases, and what a rebase adds. */
module CommitGraph {

  /** Commits are numbered in the order they were made, so a parent has a smaller number. */
  type Commit = nat

  /** The parents of every commit. */
  type Graph = map<Commit, seq<Commit>>

  predicate Wf(g: Graph) {
    forall c :: c in g ==> forall p :: p in g[c] ==> p in g && p < c
  }

  /** git merge-base --is-ancestor a c; a commit is its own ancestor. */
  predicate Ancestor(g: Graph, a: Commit, c: Commit)
    decreases c
  {
    a == c || (c in g && exists p :: p in g[c] && p < c && Ancestor(g, a, p))
  }

  predicate Common(g: Graph, x: Commit, a: Commit, b: Commit) {
    Ancestor(g, x, a) && Ancestor(g, x, b)
  }

  /** git merge-base a b: a common ancestor that is not an ancestor of another one. */
  predicate IsMergeBase(g: Graph, m: Commit, a: Commit, b: Commit) {
    Common(g, m, a, b) && forall x | 0 <= x <= a :: Common(g, x, a, b) && Ancestor(g, m, x) ==> x == m
  }

  /** The history of a commit is a line. */
  predicate Linear(g: Graph, c: Commit) {
    forall x, y | 0 <= x <= c && 0 <= y <= c :: Ancestor(g, x, c) && Ancestor(g, y, c) ==> Ancestor(g, x, y) || Ancestor(g, y, x)
  }

  /** More commits, none of the old ones changed. */
  predicate Extends(g: Graph, g': Graph) {
    Wf(g') && forall c :: c in g ==> c in g' && g'[c] == g[c]
  }

  lemma {:induction false} AncestorIsOlder(g: Graph, a: Commit, c: Commit)
    requires Ancestor(g, a, c)
    ensures a <= c
    ensures Wf(g) && c in g ==> a in g
    decreases c
  {
    if a != c {
      var p :| p in g[c] && p < c && Ancestor(g, a, p);
      AncestorIsOlder(g, a, p);
    }
  }

  lemma {:induction false} AncestorIsTransitive(g: Graph, a: Commit, b: Commit, c: Commit)
    requires Ancestor(g, a, b) && Ancestor(g, b, c)
    ensures Ancestor(g, a, c)
    decreases c
  {
    if b != c {
      var p :| p in g[c] && p < c && Ancestor(g, b, p);
      AncestorIsTransitive(g, a, b, p);
    }
  }

  lemma {:induction false} ExtensionKeepsAncestors(g: Graph, g': Graph, a: Commit, c: Commit)
    requires Wf(g) && Extends(g, g') && c in g
    ensures Ancestor(g', a, c) <==> Ancestor(g, a, c)
    decreases c
  {
    if a != c {
      forall p | p in g[c] ensures Ancestor(g', a, p) <==> Ancestor(g, a, p) {
        ExtensionKeepsAncestors(g, g', a, p);
      }
      assert g'[c] == g[c];
    }
  }

  /** A common ancestor with every other one behind it is the only merge base. */
  lemma TopIsMergeBase(g: Graph, t: Commit, a: Commit, b: Commit, m: Commit)
    requires Common(g, t, a, b)
    requires forall x :: Common(g, x, a, b) ==> Ancestor(g, x, t)
    ensures IsMergeBase(g, m, a, b) <==> m == t
  {
    AncestorIsOlder(g, t, a);
    if IsMergeBase(g, m, a, b) {
      assert Ancestor(g, m, t);
    }
    forall x | 0 <= x <= a && Common(g, x, a, b) && Ancestor(g, t, x) ensures x == t {
      AncestorIsOlder(g, t, x);
      AncestorIsOlder(g, x, t);
    }
  }

  /** On a linear history the merge base is the last common commit, and there is only one. */
  lemma LinearMergeBase(g: Graph, m: Commit, head: Commit, main: Commit, x: Commit)
    requires Linear(g, main) && IsMergeBase(g, m, head, main) && Common(g, x, head, main)
    ensures Ancestor(g, x, m)
  {
    AncestorIsOlder(g, x, main);
    AncestorIsOlder(g, m, main);
    AncestorIsOlder(g, x, head);
  }

  // ----- rebase

  /** The graph with a line of new commits on top of `onto`. */
  function Chain(g: Graph, onto: Commit, added: seq<Commit>): Graph
    decreases |added|
  {
    if added == [] then g else Chain(g[added[0] := [onto]], added[0], added[1..])
  }

  function Tip(onto: Commit, added: seq<Commit>): Commit {
    if added == [] then onto else added[|added| - 1]
  }

  /** Commits nobody has yet, each made after the one below it. */
  predicate AllNew(g: Graph, onto: Commit, added: seq<Commit>) {
    && (forall i :: 0 <= i < |added| ==> added[i] !in g && added[i] > onto)
    && (forall i, j :: 0 <= i < j < |added| ==> added[i] < added[j])
  }

  /** Behind the tip of the replayed commits are those commits and what was behind `onto`. */
  lemma {:induction false} ChainAncestors(g: Graph, onto: Commit, added: seq<Commit>)
    requires Wf(g) && onto in g && AllNew(g, onto, added)
    ensures var g' := Chain(g, onto, added);
      && Extends(g, g') && Tip(onto, added) in g'
      && forall x :: Ancestor(g', x, Tip(onto, added)) <==> x in added || Ancestor(g, x, onto)
    decreases |added|
  {
    if added == [] {
      forall x ensures Ancestor(g, x, onto) <==> x in added || Ancestor(g, x, onto) {}
    } else {
      var first, rest := added[0], added[1..];
      var g1 := g[first := [onto]];
      NextNew(g, onto, added);
      assert Wf(g1) && Extends(g, g1);
      ChainAncestors(g1, first, rest);
      var g' := Chain(g1, first, rest);
      assert Tip(onto, added) == Tip(first, rest);
      forall x ensures Ancestor(g', x, Tip(onto, added)) <==> x in added || Ancestor(g, x, onto) {
        ExtensionKeepsAncestors(g, g1, x, onto);
        assert onto in g1[first];
        assert added == [first] + rest;
      }
    }
  }

  lemma NextNew(g: Graph, onto: Commit, added: seq<Commit>)
    requires added != [] && AllNew(g, onto, added)
    ensures AllNew(g[added[0] := [onto]], added[0], added[1..]) && added[0] > onto && added[0] !in g
  {
  }

  /** Commits that already stand in a line on top of `onto`. */
  predicate Line(g: Graph, onto: Commit, kept: seq<Commit>) {
    forall i :: 0 <= i < |kept| ==> kept[i] in g && g[kept[i]] == [Below(onto, kept, i)]
  }

  function Below(onto: Commit, line: seq<Commit>, i: nat): Commit
    requires i < |line|
  {
    if i == 0 then onto else line[i - 1]
  }

  lemma OneParent(g: Graph, c: Commit, p: Commit, x: Commit)
    requires c in g && g[c] == [p] && p < c
    ensures Ancestor(g, x, c) <==> x == c || Ancestor(g, x, p)
  {
    assert p in g[c];
  }

  lemma NoParent(g: Graph, c: Commit, x: Commit)
    requires c in g && g[c] == []
    ensures Ancestor(g, x, c) <==> x == c
  {
  }

  lemma TwoParents(g: Graph, c: Commit, p: Commit, q: Commit, x: Commit)
    requires c in g && g[c] == [p, q] && p < c && q < c
    ensures Ancestor(g, x, c) <==> x == c || Ancestor(g, x, p) || Ancestor(g, x, q)
  {
    assert p in g[c] && q in g[c];
  }

  lemma BestCommon(g: Graph, m: Commit, a: Commit, b: Commit)
    requires Common(g, m, a, b) && forall x :: Common(g, x, a, b) && Ancestor(g, m, x) ==> x == m
    ensures IsMergeBase(g, m, a, b)
  {
  }

  /** A commit of a line, and the line below it. */
  lemma LineAt(g: Graph, onto: Commit, kept: seq<Commit>, i: nat)
    requires Wf(g) && Line(g, onto, kept) && i < |kept|
    ensures Line(g, onto, kept[..i]) && Below(onto, kept, i) == Tip(onto, kept[..i])
    ensures kept[i] in g && g[kept[i]] == [Below(onto, kept, i)] && Below(onto, kept, i) < kept[i]
  {
    LineFront(g, onto, kept, i);
    assert kept[i] in g && g[kept[i]] == [Below(onto, kept, i)];
    ParentIsOlder(g, kept[i], Below(onto, kept, i));
    hide Wf, Line;
  }

  lemma LineFront(g: Graph, onto: Commit, kept: seq<Commit>, i: nat)
    requires Line(g, onto, kept) && i <= |kept|
    ensures Line(g, onto, kept[..i])
  {
    var front := kept[..i];
    forall j | 0 <= j < |front| ensures front[j] in g && g[front[j]] == [Below(onto, front, j)] {
      assert front[j] == kept[j] && (j > 0 ==> front[j - 1] == kept[j - 1]);
    }
  }

  lemma ParentIsOlder(g: Graph, c: Commit, p: Commit)
    requires Wf(g) && c in g && g[c] == [p]
    ensures p < c
  {
    assert p in g[c];
  }

  /** Behind the end of a line are its commits and what was behind its start. */
  lemma {:induction false} LineAncestors(g: Graph, onto: Commit, kept: seq<Commit>)
    requires Wf(g) && onto in g && Line(g, onto, kept)
    ensures Tip(onto, kept) in g
    ensures forall x :: Ancestor(g, x, Tip(onto, kept)) <==> x in kept || Ancestor(g, x, onto)
    decreases |kept|
  {
    hide Wf, Line, Ancestor;
    if kept != [] {
      var n := |kept| - 1;
      LineAt(g, onto, kept, n);
      LineAncestors(g, onto, kept[..n]);
      assert kept == kept[..n] + [kept[n]];
      forall x ensures Ancestor(g, x, kept[n]) <==> x == kept[n] || Ancestor(g, x, Tip(onto, kept[..n])) {
        OneParent(g, kept[n], Below(onto, kept, n), x);
      }
    }
  }

  /** The first commit of a line is behind every other, and above the start. */
  lemma {:induction false} FirstOfLine(g: Graph, onto: Commit, kept: seq<Commit>, i: nat)
    requires Wf(g) && Line(g, onto, kept) && i < |kept|
    ensures Ancestor(g, kept[0], kept[i]) && Ancestor(g, onto, kept[0]) && onto < kept[0]
    decreases i
  {
    hide Wf, Line, Ancestor;
    LineAt(g, onto, kept, 0);
    LineAt(g, onto, kept, i);
    Itself(g, onto);
    Itself(g, kept[0]);
    OneParent(g, kept[0], onto, onto);
    if i > 0 {
      FirstOfLine(g, onto, kept, i - 1);
      OneParent(g, kept[i], kept[i - 1], kept[0]);
    }
  }

  /** What a rebase onto `target` leaves: `kept` commits that already stood there, and `added` ones on top. */
  function RebasedGraph(g: Graph, target: Commit, kept: seq<Commit>, added: seq<Commit>): Graph {
    Chain(g, Tip(target, kept), added)
  }

  function RebasedTip(target: Commit, kept: seq<Commit>, added: seq<Commit>): Commit {
    Tip(Tip(target, kept), added)
  }

  /** What the rebased commits share with main: what is behind the target, and kept commits that are on main. */
  lemma RebasedCommon(g: Graph, target: Commit, kept: seq<Commit>, added: seq<Commit>, main: Commit, x: Commit)
    requires Wf(g) && target in g && main in g && Ancestor(g, target, main)
    requires Line(g, target, kept) && AllNew(g, Tip(target, kept), added)
    ensures var g', tip := RebasedGraph(g, target, kept, added), RebasedTip(target, kept, added);
      && Extends(g, g') && (Common(g', x, tip, main) <==> Ancestor(g, x, target) || (x in kept && Ancestor(g, x, main)))
  {
    var g' := RebasedGraph(g, target, kept, added);
    LineAncestors(g, target, kept);
    ChainAncestors(g, Tip(target, kept), added);
    hide Ancestor, Line, AllNew;
    ExtensionKeepsAncestors(g, g', x, main);
    if Ancestor(g, x, target) {
      AncestorIsTransitive(g, x, target, main);
    }
    if Ancestor(g, x, main) {
      AncestorIsOlder(g, x, main);
      NotNew(g, Tip(target, kept), added, x);
    }
  }

  lemma NotNew(g: Graph, onto: Commit, added: seq<Commit>, x: Commit)
    requires AllNew(g, onto, added) && x in g
    ensures x !in added
  {
  }

  /** After a rebase onto a commit of main, that commit is the merge base with main, and the only one, unless a kept commit is on main. */
  lemma RebasedBase(g: Graph, target: Commit, kept: seq<Commit>, added: seq<Commit>, main: Commit, m: Commit)
    requires Wf(g) && target in g && main in g && Ancestor(g, target, main)
    requires Line(g, target, kept) && AllNew(g, Tip(target, kept), added)
    requires kept == [] || !Ancestor(g, kept[0], main)
    ensures IsMergeBase(RebasedGraph(g, target, kept, added), m, RebasedTip(target, kept, added), main) <==> m == target
  {
    var g', tip := RebasedGraph(g, target, kept, added), RebasedTip(target, kept, added);
    Itself(g, target);
    RebasedCommon(g, target, kept, added, main, target);
    forall x ensures Common(g', x, tip, main) <==> Ancestor(g', x, target) {
      RebasedCommon(g, target, kept, added, main, x);
      ExtensionKeepsAncestors(g, g', x, target);
      if x in kept && Ancestor(g, x, main) {
        var i :| 0 <= i < |kept| && kept[i] == x;
        FirstOfLine(g, target, kept, i);
        AncestorIsTransitive(g, kept[0], x, main);
        assert false;
      }
    }
    hide Ancestor, IsMergeBase, Line, AllNew;
    TopIsMergeBase(g', target, tip, main, m);
  }

  /** If one is, the target is no merge base any more. */
  lemma KeptIsNoBase(g: Graph, target: Commit, kept: seq<Commit>, added: seq<Commit>, main: Commit)
    requires Wf(g) && target in g && main in g && Ancestor(g, target, main)
    requires Line(g, target, kept) && AllNew(g, Tip(target, kept), added)
    requires kept != [] && Ancestor(g, kept[0], main)
    ensures !IsMergeBase(RebasedGraph(g, target, kept, added), target, RebasedTip(target, kept, added), main)
  {
    var g', tip, x := RebasedGraph(g, target, kept, added), RebasedTip(target, kept, added), kept[0];
    RebasedCommon(g, target, kept, added, main, x);
    FirstOfLine(g, target, kept, 0);
    assert x in g;
    ExtensionKeepsAncestors(g, g', target, x);
    AncestorIsOlder(g', x, tip);
  }

  lemma Itself(g: Graph, c: Commit)
    ensures Ancestor(g, c, c)
  {
  }
}
