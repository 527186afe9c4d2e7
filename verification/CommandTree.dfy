/** The cobra command tree as the CLI uses it: commands on the heap, and the tree they form. */
module CommandTree {
  import opened Text

  /** What invoking a command does: nothing of its own, a registered handler, or the offline error. */
  datatype Run = NoRun | Handler(key: string) | Offline(path: string, reason: string)

  datatype ArgRule = DefaultArgs | AtLeast(n: nat) | AnyArgs

  /** A command and everything below it, as a value. */
  datatype Tree = Node(use: string, run: Run, args: ArgRule, hidden: bool, children: seq<Tree>)

  /** cobra's Name: the first word of the use line. */
  function Name(use: string): string {
    if use == "" || use[0] == ' ' then "" else [use[0]] + Name(use[1..])
  }

  lemma {:induction false} NameOfUse(name: string, rest: string)
    requires ' ' !in name && (rest == "" || rest[0] == ' ')
    ensures Name(name + rest) == name
  {
    if name == "" {
      assert name + rest == rest;
    } else {
      assert (name + rest)[1..] == name[1..] + rest;
      NameOfUse(name[1..], rest);
    }
  }

  /** A command on the heap. `tree` is the value it and its subtree stand for, `repr` the objects they are made of. */
  class Command {
    var use: string
    var run: Run
    var args: ArgRule
    var hidden: bool
    var children: seq<Command>
    ghost var tree: Tree
    ghost var repr: set<object>

    ghost predicate Valid()
      reads this, repr
      decreases repr
    {
      && this in repr
      && tree.use == use && tree.run == run && tree.args == args && tree.hidden == hidden
      && |tree.children| == |children|
      && (forall i :: 0 <= i < |children| ==>
            && children[i] in repr && children[i].repr <= repr && this !in children[i].repr
            && children[i].Valid() && children[i].tree == tree.children[i])
      && (forall i, j :: 0 <= i < j < |children| ==> children[i].repr !! children[j].repr)
    }

    constructor (use: string, run: Run, args: ArgRule)
      ensures Valid() && fresh(repr) && tree == Node(use, run, args, false, [])
    {
      this.use, this.run, this.args, this.hidden, this.children := use, run, args, false, [];
      this.tree := Node(use, run, args, false, []);
      this.repr := {this};
    }

    method AddCommand(child: Command)
      requires Valid() && child.Valid() && repr !! child.repr
      modifies this
      ensures Valid() && repr == old(repr) + child.repr
      ensures tree == old(tree).(children := old(tree.children) + [child.tree])
    {
      children := children + [child];
      repr := repr + child.repr;
      tree := tree.(children := tree.children + [child.tree]);
    }
  }

  // ----- the surface

  predicate IsBuiltIn(name: string) {
    name == "help" || name == "completion"
  }

  function Dotted(prefix: string, name: string): string {
    if prefix == "" then name else prefix + "." + name
  }

  /** Whether the command itself is on the surface: runnable, and not a group. */
  predicate IsLeaf(t: Tree) {
    t.run != NoRun && t.children == []
  }

  /** The keys of the runnable leaves below some commands, in tree order. */
  function Surface(trees: seq<Tree>, prefix: string): seq<string> {
    if trees == [] then [] else SurfaceOfTree(trees[0], prefix) + Surface(trees[1..], prefix)
  }

  function SurfaceOfTree(t: Tree, prefix: string): seq<string> {
    if t.hidden || IsBuiltIn(Name(t.use)) then [] else
      var key := Dotted(prefix, Name(t.use));
      (if IsLeaf(t) then [key] else []) + Surface(t.children, key)
  }

  lemma {:induction false} SurfaceConcat(a: seq<Tree>, b: seq<Tree>, prefix: string)
    ensures Surface(a + b, prefix) == Surface(a, prefix) + Surface(b, prefix)
  {
    hide SurfaceOfTree;
    if a == [] {
      assert a + b == b;
    } else {
      assert (a + b)[1..] == a[1..] + b;
      SurfaceConcat(a[1..], b, prefix);
    }
  }

  /** The recursive walk of cobraSurfaceKeys, before the keys are sorted. */
  method Walk(parent: Command, prefix: string) returns (out: seq<string>)
    requires parent.Valid()
    ensures out == Surface(parent.tree.children, prefix)
    decreases parent.repr, 0
  {
    hide Name, IsBuiltIn, SurfaceOfTree;
    out := [];
    for i := 0 to |parent.children|
      invariant out + Surface(parent.tree.children[i..], prefix) == Surface(parent.tree.children, prefix)
    {
      assert parent.tree.children[i..][1..] == parent.tree.children[i + 1..];
      assert parent.children[i].repr < parent.repr;
      var keys := WalkChild(parent.children[i], prefix);
      out := out + keys;
    }
  }

  method WalkChild(child: Command, prefix: string) returns (out: seq<string>)
    requires child.Valid()
    ensures out == SurfaceOfTree(child.tree, prefix)
    decreases child.repr, 1
  {
    hide Name, IsBuiltIn, Surface;
    var name := Name(child.use);
    if child.hidden || IsBuiltIn(name) {
      return [];
    }
    var key := Dotted(prefix, name);
    out := if child.run != NoRun && |child.children| == 0 then [key] else [];
    var below := Walk(child, key);
    out := out + below;
  }

  /** cobraSurfaceKeys */
  method SurfaceKeys(root: Command) returns (keys: seq<string>)
    requires root.Valid()
    ensures IsSorted(keys) && multiset(keys) == multiset(Surface(root.tree.children, ""))
  {
    hide SortStrings, IsSorted, Surface;
    var out := Walk(root, "");
    SortSorts(out);
    keys := SortStrings(out);
  }
}
