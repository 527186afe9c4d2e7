/** Compiling the command schema and the handler registry into the command tree. */
module Dispatcher {
  import opened Text
  import opened CommandTree

  /** A command of the schema; one with subcommands is a group. */
  datatype CliCommand = CliCommand(name: string, inDevelopment: bool, args: seq<string>, commands: seq<CliCommand>)

  datatype CliDomain = CliDomain(name: string, inDevelopment: bool, commands: seq<CliCommand>)

  // ----- keys of the schema

  function CommandKey(domain: string, command: string): string {
    domain + "." + command
  }

  /** flattenCommandKeys */
  function FlattenKeys(domain: string, prefix: string, commands: seq<CliCommand>, skipInDev: bool): seq<string>
    decreases commands
  {
    if commands == [] then []
    else FlattenCommand(domain, prefix, commands[0], skipInDev) + FlattenKeys(domain, prefix, commands[1..], skipInDev)
  }

  function FlattenCommand(domain: string, prefix: string, cmd: CliCommand, skipInDev: bool): seq<string>
    decreases cmd
  {
    if skipInDev && cmd.inDevelopment then []
    else if cmd.commands != [] then FlattenKeys(domain, Dotted(prefix, cmd.name), cmd.commands, skipInDev)
    else [CommandKey(domain, Dotted(prefix, cmd.name))]
  }

  /** CLIConfig.Keys: every stamped key. */
  function AllKeys(schema: seq<CliDomain>): seq<string> {
    if schema == [] then []
    else FlattenKeys(schema[0].name, "", schema[0].commands, false) + AllKeys(schema[1..])
  }

  /** CLIConfig.KeysPublished: the keys with no in_development ancestor. */
  function PublishedKeys(schema: seq<CliDomain>): seq<string> {
    if schema == [] then []
    else (if schema[0].inDevelopment then [] else FlattenKeys(schema[0].name, "", schema[0].commands, true)) + PublishedKeys(schema[1..])
  }

  function Keep(keys: seq<string>, registry: set<string>): seq<string> {
    if keys == [] then [] else (if keys[0] in registry then [keys[0]] else []) + Keep(keys[1..], registry)
  }

  predicate Dispatches(d: CliDomain, overrides: set<string>, dev: bool) {
    d.name !in overrides && (dev || !d.inDevelopment)
  }

  /** The keys a build of the tree should expose: leaves with a handler, nothing in development unless asked for. */
  function DispatchedKeys(schema: seq<CliDomain>, registry: set<string>, overrides: set<string>, dev: bool): seq<string> {
    if schema == [] then [] else
      (if Dispatches(schema[0], overrides, dev) then Keep(FlattenKeys(schema[0].name, "", schema[0].commands, !dev), registry) else [])
      + DispatchedKeys(schema[1..], registry, overrides, dev)
  }

  // ----- the tree a schema compiles to

  function ArgsText(args: seq<string>): string {
    if args == [] then "" else " <" + args[0] + ">" + ArgsText(args[1..])
  }

  /** buildUseString */
  function UseString(cmd: CliCommand): string {
    cmd.name + ArgsText(cmd.args)
  }

  function LeafTree(cmd: CliCommand, key: string): Tree {
    Node(UseString(cmd), Handler(key), if cmd.args == [] then DefaultArgs else AtLeast(|cmd.args|), false, [])
  }

  function AttachedAll(domain: string, prefix: string, commands: seq<CliCommand>, registry: set<string>, dev: bool): seq<Tree>
    decreases commands
  {
    if commands == [] then []
    else Attached(domain, prefix, commands[0], registry, dev) + AttachedAll(domain, prefix, commands[1..], registry, dev)
  }

  /** What one schema command adds below its parent: nothing, a leaf, or a group that is not empty. */
  function Attached(domain: string, prefix: string, cmd: CliCommand, registry: set<string>, dev: bool): seq<Tree>
    decreases cmd
  {
    if cmd.inDevelopment && !dev then []
    else if cmd.commands != [] then
      var below := AttachedAll(domain, Dotted(prefix, cmd.name), cmd.commands, registry, dev);
      if below == [] then [] else [Node(cmd.name, NoRun, DefaultArgs, false, below)]
    else
      var key := CommandKey(domain, Dotted(prefix, cmd.name));
      if key in registry then [LeafTree(cmd, key)] else []
  }

  function DomainTrees(schema: seq<CliDomain>, registry: set<string>, overrides: set<string>, dev: bool): seq<Tree> {
    if schema == [] then []
    else DomainTree(schema[0], registry, overrides, dev) + DomainTrees(schema[1..], registry, overrides, dev)
  }

  function DomainTree(d: CliDomain, registry: set<string>, overrides: set<string>, dev: bool): seq<Tree> {
    var below := AttachedAll(d.name, "", d.commands, registry, dev);
    if Dispatches(d, overrides, dev) && below != [] then [Node(d.name, NoRun, DefaultArgs, false, below)] else []
  }

  /** How many leaves with a handler some trees hold. */
  function Leaves(trees: seq<Tree>): nat {
    if trees == [] then 0 else LeavesOf(trees[0]) + Leaves(trees[1..])
  }

  function LeavesOf(t: Tree): nat {
    (if IsLeaf(t) then 1 else 0) + Leaves(t.children)
  }

  lemma {:induction false} LeavesConcat(a: seq<Tree>, b: seq<Tree>)
    ensures Leaves(a + b) == Leaves(a) + Leaves(b)
  {
    hide LeavesOf;
    if a == [] {
      assert a + b == b;
    } else {
      assert (a + b)[1..] == a[1..] + b;
      LeavesConcat(a[1..], b);
    }
  }

  lemma LeavesOfOne(t: Tree)
    ensures Leaves([t]) == LeavesOf(t)
  {
    assert Leaves([t][1..]) == 0;
  }

  /** Nothing attached means no leaf, and a leaf attached means something is. */
  lemma {:induction false} AttachedHasLeaves(domain: string, prefix: string, commands: seq<CliCommand>, registry: set<string>, dev: bool)
    ensures Leaves(AttachedAll(domain, prefix, commands, registry, dev)) == 0 <==> AttachedAll(domain, prefix, commands, registry, dev) == []
    decreases commands
  {
    if commands != [] {
      var first := Attached(domain, prefix, commands[0], registry, dev);
      AttachedOneHasLeaves(domain, prefix, commands[0], registry, dev);
      AttachedHasLeaves(domain, prefix, commands[1..], registry, dev);
      LeavesConcat(first, AttachedAll(domain, prefix, commands[1..], registry, dev));
    }
  }

  lemma {:induction false} AttachedOneHasLeaves(domain: string, prefix: string, cmd: CliCommand, registry: set<string>, dev: bool)
    ensures Leaves(Attached(domain, prefix, cmd, registry, dev)) == 0 <==> Attached(domain, prefix, cmd, registry, dev) == []
    decreases cmd
  {
    var t := Attached(domain, prefix, cmd, registry, dev);
    if t != [] {
      LeavesOfOne(t[0]);
      assert t == [t[0]];
      if cmd.commands != [] { AttachedHasLeaves(domain, Dotted(prefix, cmd.name), cmd.commands, registry, dev); }
    }
  }

  // ----- building it

  /** buildSubcommand */
  method BuildSubcommand(cmd: CliCommand, key: string) returns (c: Command)
    ensures c.Valid() && fresh(c.repr) && c.tree == LeafTree(cmd, key)
  {
    var rule := DefaultArgs;
    if |cmd.args| > 0 {
      rule := AtLeast(|cmd.args|);
    }
    c := new Command(UseString(cmd), Handler(key), rule);
  }

  /** attachDomainCommand: returns how many leaf handlers it attached below `parent`. */
  method AttachDomainCommand(parent: Command, domain: string, prefix: string, cmd: CliCommand, registry: set<string>, dev: bool)
    returns (attached: nat)
    requires parent.Valid()
    modifies parent
    ensures parent.Valid() && fresh(parent.repr - old(parent.repr)) && old(parent.repr) <= parent.repr
    ensures parent.tree == old(parent.tree).(children := old(parent.tree.children) + Attached(domain, prefix, cmd, registry, dev))
    ensures attached == Leaves(Attached(domain, prefix, cmd, registry, dev))
    decreases cmd
  {
    hide Leaves, LeafTree, AttachedAll, CommandKey;
    AttachedOneHasLeaves(domain, prefix, cmd, registry, dev);
    if cmd.inDevelopment && !dev {
      return 0;
    }
    var fullName := Dotted(prefix, cmd.name);
    if |cmd.commands| > 0 {
      var group := new Command(cmd.name, NoRun, DefaultArgs);
      attached := AttachAll(group, domain, fullName, cmd.commands, registry, dev);
      AttachedHasLeaves(domain, fullName, cmd.commands, registry, dev);
      if attached == 0 {
        return 0;
      }
      parent.AddCommand(group);
      LeavesOfOne(group.tree);
      assert [] + AttachedAll(domain, fullName, cmd.commands, registry, dev) == AttachedAll(domain, fullName, cmd.commands, registry, dev);
      return attached;
    }
    var key := CommandKey(domain, fullName);
    if key !in registry {
      return 0;
    }
    var leaf := BuildSubcommand(cmd, key);
    parent.AddCommand(leaf);
    LeavesOfOne(leaf.tree);
    assert LeavesOf(leaf.tree) == 1 by { OneLeaf(cmd, key); }
    return 1;
  }

  lemma NoLeaves()
    ensures Leaves([]) == 0
  {
  }

  lemma OneLeaf(cmd: CliCommand, key: string)
    ensures LeavesOf(LeafTree(cmd, key)) == 1
  {
  }

  /** The loop over a group's or a domain's commands, counting what was attached. */
  method AttachAll(parent: Command, domain: string, prefix: string, commands: seq<CliCommand>, registry: set<string>, dev: bool)
    returns (attached: nat)
    requires parent.Valid()
    modifies parent
    ensures parent.Valid() && fresh(parent.repr - old(parent.repr)) && old(parent.repr) <= parent.repr
    ensures parent.tree == old(parent.tree).(children := old(parent.tree.children) + AttachedAll(domain, prefix, commands, registry, dev))
    ensures attached == Leaves(AttachedAll(domain, prefix, commands, registry, dev))
    decreases commands
  {
    hide Attached, Leaves;
    attached := 0;
    assert Leaves([]) == 0 by { NoLeaves(); }
    ghost var before := parent.tree.children;
    ghost var all := AttachedAll(domain, prefix, commands, registry, dev);
    for i := 0 to |commands|
      invariant parent.Valid() && fresh(parent.repr - old(parent.repr)) && old(parent.repr) <= parent.repr
      invariant parent.tree == old(parent.tree).(children := parent.tree.children)
      invariant parent.tree.children + AttachedAll(domain, prefix, commands[i..], registry, dev) == before + all
      invariant attached + Leaves(AttachedAll(domain, prefix, commands[i..], registry, dev)) == Leaves(all)
    {
      assert commands[i..][1..] == commands[i + 1..];
      var n := AttachDomainCommand(parent, domain, prefix, commands[i], registry, dev);
      LeavesConcat(Attached(domain, prefix, commands[i], registry, dev), AttachedAll(domain, prefix, commands[i + 1..], registry, dev));
      attached := attached + n;
    }
    assert parent.tree.children + [] == parent.tree.children;
  }

  /** BuildDispatched; `schema` is None when the stamp cannot be read, which leaves the tree as it is. */
  method BuildDispatched(root: Command, schema: Option<seq<CliDomain>>, registry: set<string>, overrides: set<string>, dev: bool)
    requires root.Valid()
    modifies root
    ensures root.Valid()
    ensures root.tree == old(root.tree).(children := old(root.tree.children) +
              if schema.Some? then DomainTrees(schema.value, registry, overrides, dev) else [])
  {
    hide DomainTree;
    if schema == None {
      assert old(root.tree.children) + [] == old(root.tree.children);
      return;
    }
    var domains := schema.value;
    ghost var before, all := root.tree.children, DomainTrees(domains, registry, overrides, dev);
    for i := 0 to |domains|
      invariant root.Valid() && fresh(root.repr - old(root.repr))
      invariant root.tree == old(root.tree).(children := root.tree.children)
      invariant root.tree.children + DomainTrees(domains[i..], registry, overrides, dev) == before + all
    {
      assert domains[i..][1..] == domains[i + 1..];
      AttachDomain(root, domains[i], registry, overrides, dev);
    }
    assert root.tree.children + [] == root.tree.children;
  }

  /** One domain: skipped, or attached unless nothing below it has a handler. */
  method AttachDomain(root: Command, d: CliDomain, registry: set<string>, overrides: set<string>, dev: bool)
    requires root.Valid()
    modifies root
    ensures root.Valid() && fresh(root.repr - old(root.repr))
    ensures root.tree == old(root.tree).(children := old(root.tree.children) + DomainTree(d, registry, overrides, dev))
  {
    hide AttachedAll, Leaves;
    if d.name in overrides || (d.inDevelopment && !dev) {
      return;
    }
    var domainCmd := new Command(d.name, NoRun, DefaultArgs);
    var attached := AttachAll(domainCmd, d.name, "", d.commands, registry, dev);
    AttachedHasLeaves(d.name, "", d.commands, registry, dev);
    assert [] + AttachedAll(d.name, "", d.commands, registry, dev) == AttachedAll(d.name, "", d.commands, registry, dev);
    if attached == 0 {
      return;
    }
    root.AddCommand(domainCmd);
  }

  // ----- reading it back

  /** A name cobra gives back as it is: one word, and not one of cobra's own. */
  predicate NameOk(name: string) {
    name != "" && ' ' !in name && !IsBuiltIn(name)
  }

  predicate NamesOk(commands: seq<CliCommand>)
    decreases commands
  {
    forall i :: 0 <= i < |commands| ==> NamesOkBelow(commands[i])
  }

  predicate NamesOkBelow(cmd: CliCommand)
    decreases cmd
  {
    NameOk(cmd.name) && NamesOk(cmd.commands)
  }

  predicate SchemaNamesOk(schema: seq<CliDomain>) {
    forall i :: 0 <= i < |schema| ==> NameOk(schema[i].name) && NamesOk(schema[i].commands)
  }

  lemma {:induction false} KeepConcat(a: seq<string>, b: seq<string>, registry: set<string>)
    ensures Keep(a + b, registry) == Keep(a, registry) + Keep(b, registry)
  {
    if a == [] {
      assert a + b == b;
    } else {
      assert (a + b)[1..] == a[1..] + b;
      KeepConcat(a[1..], b, registry);
    }
  }

  lemma NameOfLeaf(cmd: CliCommand)
    requires NameOk(cmd.name)
    ensures Name(UseString(cmd)) == cmd.name
  {
    hide Name;
    assert ArgsText(cmd.args) == "" || ArgsText(cmd.args)[0] == ' ';
    NameOfUse(cmd.name, ArgsText(cmd.args));
  }

  lemma NameOfGroup(name: string)
    requires NameOk(name)
    ensures Name(name) == name && !IsBuiltIn(Name(name))
  {
    hide Name;
    NameOfUse(name, "");
    assert name + "" == name;
  }

  lemma DottedTwice(domain: string, prefix: string, name: string)
    requires domain != "" && name != ""
    ensures Dotted(Path(domain, prefix), name) == Path(domain, Dotted(prefix, name))
    ensures Dotted(prefix, name) != "" && Path(domain, Dotted(prefix, name)) == CommandKey(domain, Dotted(prefix, name))
  {
  }

  /** The dotted path down to a group of a domain. */
  function Path(domain: string, prefix: string): string {
    if prefix == "" then domain else CommandKey(domain, prefix)
  }

  lemma SurfaceOfOne(t: Tree, prefix: string)
    ensures Surface([t], prefix) == SurfaceOfTree(t, prefix)
  {
    hide SurfaceOfTree;
    assert Surface([t][1..], prefix) == [];
  }

  /** The surface of what a list of commands attaches is the list of their keys that have a handler. */
  lemma {:induction false} AttachedSurface(domain: string, prefix: string, commands: seq<CliCommand>, registry: set<string>, dev: bool)
    requires domain != "" && NamesOk(commands)
    ensures Surface(AttachedAll(domain, prefix, commands, registry, dev), Path(domain, prefix)) ==
            Keep(FlattenKeys(domain, prefix, commands, !dev), registry)
    decreases commands
  {
    hide Attached, FlattenCommand, SurfaceOfTree, Path, NamesOkBelow;
    if commands != [] {
      assert NamesOkBelow(commands[0]);
      AttachedOneSurface(domain, prefix, commands[0], registry, dev);
      AttachedSurface(domain, prefix, commands[1..], registry, dev);
      SurfaceConcat(Attached(domain, prefix, commands[0], registry, dev), AttachedAll(domain, prefix, commands[1..], registry, dev), Path(domain, prefix));
      KeepConcat(FlattenCommand(domain, prefix, commands[0], !dev), FlattenKeys(domain, prefix, commands[1..], !dev), registry);
    }
  }

  lemma {:induction false} AttachedOneSurface(domain: string, prefix: string, cmd: CliCommand, registry: set<string>, dev: bool)
    requires domain != "" && NamesOkBelow(cmd)
    ensures Surface(Attached(domain, prefix, cmd, registry, dev), Path(domain, prefix)) ==
            Keep(FlattenCommand(domain, prefix, cmd, !dev), registry)
    decreases cmd
  {
    hide AttachedAll, FlattenKeys, Path, Name, IsBuiltIn, UseString, CommandKey;
    NameIsNotEmpty(cmd.name);
    DottedTwice(domain, prefix, cmd.name);
    var full := Dotted(prefix, cmd.name);
    if cmd.inDevelopment && !dev {
    } else if cmd.commands != [] {
      AttachedSurface(domain, full, cmd.commands, registry, dev);
      var below := AttachedAll(domain, full, cmd.commands, registry, dev);
      if below != [] {
        NameOfGroup(cmd.name);
        SurfaceOfOne(Node(cmd.name, NoRun, DefaultArgs, false, below), Path(domain, prefix));
      }
    } else {
      var key := CommandKey(domain, full);
      NameOfLeaf(cmd);
      NameOfGroup(cmd.name);
      KeepOne(key, registry);
      if key in registry {
        SurfaceOfOne(LeafTree(cmd, key), Path(domain, prefix));
      }
    }
  }

  lemma NameIsNotEmpty(name: string)
    requires NameOk(name)
    ensures name != ""
  {
  }

  lemma KeepOne(key: string, registry: set<string>)
    ensures Keep([key], registry) == if key in registry then [key] else []
  {
    assert Keep([key][1..], registry) == [];
  }

  lemma {:induction false} DomainSurface(schema: seq<CliDomain>, registry: set<string>, overrides: set<string>, dev: bool)
    requires SchemaNamesOk(schema)
    ensures Surface(DomainTrees(schema, registry, overrides, dev), "") == DispatchedKeys(schema, registry, overrides, dev)
  {
    hide AttachedAll, FlattenKeys, Name, IsBuiltIn, Keep, NamesOk, NameOk, Surface;
    if schema == [] {
      assert Surface([], "") == [] by { NoSurface(); }
    } else {
      var d := schema[0];
      NameIsNotEmpty(d.name);
      DomainSurface(schema[1..], registry, overrides, dev);
      var below := AttachedAll(d.name, "", d.commands, registry, dev);
      var node := Node(d.name, NoRun, DefaultArgs, false, below);
      AttachedSurface(d.name, "", d.commands, registry, dev);
      NameOfGroup(d.name);
      SurfaceOfOne(node, "");
      NoSurfaceAt(d.name);
      SurfaceConcat(DomainTree(d, registry, overrides, dev), DomainTrees(schema[1..], registry, overrides, dev), "");
      NoSurface();
    }
  }

  lemma NoSurface()
    ensures Surface([], "") == []
  {
  }

  lemma NoSurfaceAt(prefix: string)
    ensures Surface([], prefix) == []
  {
  }

  /** Compiling a schema adds exactly its dispatched keys to the surface. */
  lemma DispatchIsExact(before: seq<Tree>, schema: seq<CliDomain>, registry: set<string>, overrides: set<string>, dev: bool)
    requires SchemaNamesOk(schema)
    ensures Surface(before + DomainTrees(schema, registry, overrides, dev), "") ==
            Surface(before, "") + DispatchedKeys(schema, registry, overrides, dev)
  {
    hide DomainTrees, DispatchedKeys, Surface;
    SurfaceConcat(before, DomainTrees(schema, registry, overrides, dev), "");
    DomainSurface(schema, registry, overrides, dev);
  }

  // ----- no empty groups

  /** Every node without children runs a handler. */
  predicate NoEmptyGroups(trees: seq<Tree>) {
    trees == [] || (FilledBelow(trees[0]) && NoEmptyGroups(trees[1..]))
  }

  predicate FilledBelow(t: Tree) {
    (t.children == [] ==> t.run.Handler?) && NoEmptyGroups(t.children)
  }

  lemma {:induction false} NoEmptyGroupsConcat(a: seq<Tree>, b: seq<Tree>)
    requires NoEmptyGroups(a) && NoEmptyGroups(b)
    ensures NoEmptyGroups(a + b)
  {
    hide FilledBelow;
    if a == [] {
      assert a + b == b;
    } else {
      assert (a + b)[1..] == a[1..] + b;
      NoEmptyGroupsConcat(a[1..], b);
    }
  }

  lemma {:induction false} AttachedIsFilled(domain: string, prefix: string, commands: seq<CliCommand>, registry: set<string>, dev: bool)
    ensures NoEmptyGroups(AttachedAll(domain, prefix, commands, registry, dev))
    decreases commands
  {
    hide FilledBelow, Attached;
    if commands != [] {
      AttachedOneIsFilled(domain, prefix, commands[0], registry, dev);
      AttachedIsFilled(domain, prefix, commands[1..], registry, dev);
      NoEmptyGroupsConcat(Attached(domain, prefix, commands[0], registry, dev), AttachedAll(domain, prefix, commands[1..], registry, dev));
    }
  }

  lemma {:induction false} AttachedOneIsFilled(domain: string, prefix: string, cmd: CliCommand, registry: set<string>, dev: bool)
    ensures NoEmptyGroups(Attached(domain, prefix, cmd, registry, dev))
    decreases cmd
  {
    hide AttachedAll;
    var t := Attached(domain, prefix, cmd, registry, dev);
    if t != [] {
      if cmd.commands != [] { AttachedIsFilled(domain, Dotted(prefix, cmd.name), cmd.commands, registry, dev); }
      assert NoEmptyGroups(t[1..]);
    }
  }

  /** A build adds no empty group, at any depth. */
  lemma {:induction false} DispatchedIsFilled(schema: seq<CliDomain>, registry: set<string>, overrides: set<string>, dev: bool)
    ensures NoEmptyGroups(DomainTrees(schema, registry, overrides, dev))
  {
    hide AttachedAll;
    if schema != [] {
      var d := schema[0];
      AttachedIsFilled(d.name, "", d.commands, registry, dev);
      DispatchedIsFilled(schema[1..], registry, overrides, dev);
      var below := AttachedAll(d.name, "", d.commands, registry, dev);
      var node := Node(d.name, NoRun, DefaultArgs, false, below);
      assert NoEmptyGroups([node][1..]);
      NoEmptyGroupsConcat(DomainTree(d, registry, overrides, dev), DomainTrees(schema[1..], registry, overrides, dev));
    }
  }
}
