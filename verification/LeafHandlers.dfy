/** Which handler each command of the dispatched tree runs, and with how many arguments. */
module LeafHandlers {
  import opened Text
  import opened CommandTree
  import opened Dispatcher
  import CommandStatus

  /** The names from the root to a command, with dots between them. */
  function KeyOf(names: seq<string>): string
    requires names != []
  {
    if |names| == 1 then names[0] else names[0] + "." + KeyOf(names[1..])
  }

  /** Typing these names one after the other ends at a visible command that runs this and takes such arguments. */
  predicate Runs(trees: seq<Tree>, names: seq<string>, run: Run, rule: ArgRule)
    decreases |names|
  {
    && names != []
    && exists t :: t in trees && RunsFrom(t, names, run, rule)
  }

  predicate RunsFrom(t: Tree, names: seq<string>, run: Run, rule: ArgRule)
    requires names != []
    decreases |names|, 0
  {
    && Name(t.use) == names[0] && !t.hidden && names[0] != "help" && names[0] != "completion"
    && if |names| == 1 then t.children == [] && t.run != NoRun && t.run == run && t.args == rule else Runs(t.children, names[1..], run, rule)
  }

  /** The schema has a leaf command of these names and arguments below its commands, with nothing in development on the way. */
  predicate Offers(commands: seq<CliCommand>, names: seq<string>, args: seq<string>, dev: bool)
    decreases |names|
  {
    && names != []
    && exists c :: c in commands && OffersFrom(c, names, args, dev)
  }

  predicate OffersFrom(c: CliCommand, names: seq<string>, args: seq<string>, dev: bool)
    requires names != []
    decreases |names|, 0
  {
    && c.name == names[0] && (dev || !c.inDevelopment)
    && if |names| == 1 then c.commands == [] && c.args == args else Offers(c.commands, names[1..], args, dev)
  }

  /** How many arguments a command may be called with. */
  predicate Allows(rule: ArgRule, count: nat) {
    rule.AtLeast? ==> count >= rule.n
  }

  function RuleFor(args: seq<string>): (rule: ArgRule)
    ensures forall count: nat :: Allows(rule, count) <==> count >= |args|
  {
    if args == [] then DefaultArgs else AtLeast(|args|)
  }

  // ----- keys

  predicate Spells(prefix: string, names: seq<string>) {
    if names == [] then prefix == "" else prefix == KeyOf(names)
  }

  lemma {:induction false} KeyOfSnoc(names: seq<string>, name: string)
    ensures KeyOf(names + [name]) == if names == [] then name else KeyOf(names) + "." + name
  {
    if |names| == 1 {
      assert (names + [name])[1..] == [name];
    } else if |names| > 1 {
      KeyOfSnoc(names[1..], name);
      assert (names + [name])[1..] == names[1..] + [name];
      assert names[0] + "." + (KeyOf(names[1..]) + "." + name) == names[0] + "." + KeyOf(names[1..]) + "." + name;
    }
  }

  lemma KeyIsNotEmpty(names: seq<string>)
    requires names != [] && forall n :: n in names ==> n != ""
    ensures KeyOf(names) != ""
  {
    assert names[0] in names;
  }

  /** A command's full name below its domain. */
  lemma DottedSpells(prefix: string, names: seq<string>, name: string)
    requires Spells(prefix, names) && name != "" && forall n :: n in names ==> n != ""
    ensures Spells(Dotted(prefix, name), names + [name])
  {
    KeyOfSnoc(names, name);
    if names != [] {
      KeyIsNotEmpty(names);
    }
  }

  lemma KeyOfCommand(domain: string, prefix: string, names: seq<string>)
    requires names != [] && Spells(prefix, names)
    ensures CommandKey(domain, prefix) == KeyOf([domain] + names)
  {
    assert ([domain] + names)[1..] == names;
  }

  // ----- the tree and the schema

  /** What a command of the tree has to run, and the schema's entry that says so. */
  ghost predicate Called(commands: seq<CliCommand>, names: seq<string>, key: string, registry: set<string>, dev: bool, run: Run, rule: ArgRule) {
    key in registry && run == Handler(key) && (exists args :: Offers(commands, names, args, dev) && rule == RuleFor(args))
  }

  lemma {:induction false} AttachedFrom(domain: string, prefix: string, commands: seq<CliCommand>, registry: set<string>, dev: bool, t: Tree)
    ensures t in AttachedAll(domain, prefix, commands, registry, dev) <==>
            exists c :: c in commands && t in Attached(domain, prefix, c, registry, dev)
  {
    hide Attached;
    if commands == [] {
      assert AttachedAll(domain, prefix, commands, registry, dev) == [];
    } else {
      var rest := commands[1..];
      AttachedFrom(domain, prefix, rest, registry, dev, t);
      assert forall c :: c in commands <==> c == commands[0] || c in rest;
      assert AttachedAll(domain, prefix, commands, registry, dev) ==
             Attached(domain, prefix, commands[0], registry, dev) + AttachedAll(domain, prefix, rest, registry, dev);
      if c :| c in commands && t in Attached(domain, prefix, c, registry, dev) {
        assert c == commands[0] || c in rest;
      }
    }
  }

  /** One command of the schema and what it adds to the tree. */
  lemma {:induction false} CommandRuns(domain: string, path: seq<string>, prefix: string, c: CliCommand, registry: set<string>, dev: bool,
                                       names: seq<string>, run: Run, rule: ArgRule)
    requires Spells(prefix, path) && (forall n :: n in path ==> n != "") && NamesOkBelow(c) && names != []
    ensures (exists t :: t in Attached(domain, prefix, c, registry, dev) && RunsFrom(t, names, run, rule)) <==>
            var key := KeyOf([domain] + (path + names));
            key in registry && run == Handler(key) && exists args :: OffersFrom(c, names, args, dev) && rule == RuleFor(args)
    decreases |names|, 1
  {
    var key := KeyOf([domain] + (path + names));
    NameIsNotEmpty(c.name);
    DottedSpells(prefix, path, c.name);
    hide KeyOf, Spells, NameOk, NamesOk, CommandKey, LeafTree, Dotted;
    var full, below := Dotted(prefix, c.name), path + [c.name];
    if c.commands != [] {
      GroupRuns(domain, below, full, c, registry, dev, names, run, rule);
      if |names| > 1 && names[0] == c.name {
        assert path + names == below + names[1..];
      }
    } else {
      KeyOfCommand(domain, full, below);
      if |names| == 1 && names[0] == c.name {
        assert path + names == below;
      }
      LeafRuns(domain, full, c, registry, dev, names, run, rule);
    }
  }

  lemma LeafRuns(domain: string, full: string, c: CliCommand, registry: set<string>, dev: bool, names: seq<string>, run: Run, rule: ArgRule)
    requires c.commands == [] && names != [] && NameOk(c.name)
    ensures var key := CommandKey(domain, full);
      (dev || !c.inDevelopment) && key in registry && RunsFrom(LeafTree(c, key), names, run, rule) <==>
      (key in registry && run == Handler(key) && exists args :: OffersFrom(c, names, args, dev) && rule == RuleFor(args))
  {
    NameOfLeaf(c);
    NameOfGroup(c.name);
    var key := CommandKey(domain, full);
    hide CommandKey, Name, IsBuiltIn, UseString, NameOk;
    assert OffersFrom(c, names, c.args, dev) || forall args :: !OffersFrom(c, names, args, dev);
  }

  lemma GroupRuns(domain: string, path: seq<string>, full: string, c: CliCommand, registry: set<string>, dev: bool,
                  names: seq<string>, run: Run, rule: ArgRule)
    requires Spells(full, path) && (forall n :: n in path ==> n != "") && NamesOkBelow(c) && names != [] && c.commands != []
    ensures var trees := AttachedAll(domain, full, c.commands, registry, dev);
      var here := (dev || !c.inDevelopment) && trees != [] && RunsFrom(Node(c.name, NoRun, DefaultArgs, false, trees), names, run, rule);
      here <==> |names| > 1 && names[0] == c.name && (dev || !c.inDevelopment)
                && Called(c.commands, names[1..], KeyOf([domain] + (path + names[1..])), registry, dev, run, rule)
    decreases |names|, 0
  {
    NameOfGroup(c.name);
    if |names| > 1 {
      CommandsRun(domain, path, full, c.commands, registry, dev, names[1..], run, rule);
    }
    hide Name, IsBuiltIn, Called, AttachedAll, NameOk;
  }

  /** A list of commands of the schema and what it adds to the tree. */
  lemma {:induction false} CommandsRun(domain: string, path: seq<string>, prefix: string, commands: seq<CliCommand>, registry: set<string>, dev: bool,
                                       names: seq<string>, run: Run, rule: ArgRule)
    requires Spells(prefix, path) && (forall n :: n in path ==> n != "") && NamesOk(commands) && names != []
    ensures Runs(AttachedAll(domain, prefix, commands, registry, dev), names, run, rule) <==>
            Called(commands, names, KeyOf([domain] + (path + names)), registry, dev, run, rule)
    decreases |names|, 2
  {
    hide RunsFrom, OffersFrom, AttachedAll, Attached, KeyOf, RuleFor, Spells, NamesOkBelow;
    var trees := AttachedAll(domain, prefix, commands, registry, dev);
    forall c | c in commands
      ensures (exists t :: t in Attached(domain, prefix, c, registry, dev) && RunsFrom(t, names, run, rule)) <==>
              var key := KeyOf([domain] + (path + names));
              key in registry && run == Handler(key) && exists args :: OffersFrom(c, names, args, dev) && rule == RuleFor(args)
    {
      assert NamesOkBelow(c);
      CommandRuns(domain, path, prefix, c, registry, dev, names, run, rule);
    }
    forall t ensures t in trees <==> exists c :: c in commands && t in Attached(domain, prefix, c, registry, dev) {
      AttachedFrom(domain, prefix, commands, registry, dev, t);
    }
  }

  /**
   * Typing the names of a command of the dispatched tree runs exactly the handler registered under its dotted key, with the
   * argument rule of the schema's entry; and every published entry with a handler can be typed.
   */
  lemma DispatchedRuns(schema: seq<CliDomain>, registry: set<string>, overrides: set<string>, dev: bool, names: seq<string>, run: Run, rule: ArgRule)
    requires SchemaNamesOk(schema)
    ensures Runs(DomainTrees(schema, registry, overrides, dev), names, run, rule) <==>
            && |names| >= 2 && KeyOf(names) in registry && run == Handler(KeyOf(names))
            && exists d, args :: d in schema && d.name == names[0] && d.name !in overrides && (dev || !d.inDevelopment)
                                 && Offers(d.commands, names[1..], args, dev) && rule == RuleFor(args)
  {
    hide RunsFrom, Offers, KeyOf, RuleFor, NamesOk, NameOk, DomainTree;
    if names != [] {
      forall d | d in schema
        ensures (exists t :: t in DomainTree(d, registry, overrides, dev) && RunsFrom(t, names, run, rule)) <==>
                && |names| >= 2 && d.name == names[0] && d.name !in overrides && (dev || !d.inDevelopment)
                && Called(d.commands, names[1..], KeyOf(names), registry, dev, run, rule)
      {
        DomainRuns(d, registry, overrides, dev, names, run, rule);
      }
      forall t ensures t in DomainTrees(schema, registry, overrides, dev) <==> exists d :: d in schema && t in DomainTree(d, registry, overrides, dev) {
        TreesFrom(schema, registry, overrides, dev, t);
      }
    }
  }

  lemma DomainRuns(d: CliDomain, registry: set<string>, overrides: set<string>, dev: bool, names: seq<string>, run: Run, rule: ArgRule)
    requires NameOk(d.name) && NamesOk(d.commands) && names != []
    ensures (exists t :: t in DomainTree(d, registry, overrides, dev) && RunsFrom(t, names, run, rule)) <==>
            && |names| >= 2 && d.name == names[0] && d.name !in overrides && (dev || !d.inDevelopment)
            && Called(d.commands, names[1..], KeyOf(names), registry, dev, run, rule)
  {
    NameOfGroup(d.name);
    if |names| >= 2 {
      CommandsRun(d.name, [], "", d.commands, registry, dev, names[1..], run, rule);
      if d.name == names[0] {
        assert [d.name] + ([] + names[1..]) == names;
      }
    }
    hide Name, IsBuiltIn, Called, AttachedAll, NameOk, NamesOk, KeyOf;
    var below := AttachedAll(d.name, "", d.commands, registry, dev);
    var node := Node(d.name, NoRun, DefaultArgs, false, below);
    assert |names| >= 2 && Runs(below, names[1..], run, rule) ==> below != [];
    assert DomainTree(d, registry, overrides, dev) == [node] || DomainTree(d, registry, overrides, dev) == [];
    assert DomainTree(d, registry, overrides, dev) == [node] ==> node in DomainTree(d, registry, overrides, dev);
  }

  lemma {:induction false} TreesFrom(schema: seq<CliDomain>, registry: set<string>, overrides: set<string>, dev: bool, t: Tree)
    ensures t in DomainTrees(schema, registry, overrides, dev) <==> exists d :: d in schema && t in DomainTree(d, registry, overrides, dev)
  {
    hide DomainTree;
    if schema != [] {
      TreesFrom(schema[1..], registry, overrides, dev, t);
      assert schema == [schema[0]] + schema[1..];
    }
  }

  // ----- the keys of a schema

  /** One of the commands, or one below it, has this key. */
  ghost predicate Keyed(commands: seq<CliCommand>, above: seq<string>, dev: bool, key: string) {
    exists names, args :: Offers(commands, names, args, dev) && key == KeyOf(above + names)
  }

  ghost predicate KeyedFrom(c: CliCommand, above: seq<string>, dev: bool, key: string) {
    exists names, args :: names != [] && OffersFrom(c, names, args, dev) && key == KeyOf(above + names)
  }

  lemma KeyedCons(commands: seq<CliCommand>, above: seq<string>, dev: bool, key: string)
    ensures Keyed(commands, above, dev, key) <==>
            commands != [] && (KeyedFrom(commands[0], above, dev, key) || Keyed(commands[1..], above, dev, key))
  {
    hide KeyOf, OffersFrom;
    if names, args :| Offers(commands, names, args, dev) && key == KeyOf(above + names) {
      var c :| c in commands && OffersFrom(c, names, args, dev);
      assert c == commands[0] || c in commands[1..];
      assert c != commands[0] ==> Offers(commands[1..], names, args, dev);
    }
    if commands != [] {
      if names, args :| names != [] && OffersFrom(commands[0], names, args, dev) && key == KeyOf(above + names) {
        assert commands[0] in commands;
        assert Offers(commands, names, args, dev);
      }
      if names, args :| Offers(commands[1..], names, args, dev) && key == KeyOf(above + names) {
        assert forall x :: x in commands[1..] ==> x in commands;
        assert Offers(commands, names, args, dev);
      }
    }
  }

  /** The keys below a group are those of its commands. */
  lemma GroupKeyed(c: CliCommand, above: seq<string>, dev: bool, key: string)
    requires c.commands != []
    ensures KeyedFrom(c, above, dev, key) <==> (dev || !c.inDevelopment) && Keyed(c.commands, above + [c.name], dev, key)
  {
    hide KeyOf, Offers;
    if names, args :| names != [] && OffersFrom(c, names, args, dev) && key == KeyOf(above + names) {
      assert names == [c.name] + names[1..] && above + names == above + [c.name] + names[1..];
      assert Offers(c.commands, names[1..], args, dev);
    }
    if names, args :| Offers(c.commands, names, args, dev) && key == KeyOf(above + [c.name] + names) {
      var all := [c.name] + names;
      OffersSomething(c.commands, names, args, dev);
      assert above + all == above + [c.name] + names && all[1..] == names;
      assert dev || !c.inDevelopment ==> OffersFrom(c, all, args, dev);
    }
  }

  lemma OffersSomething(commands: seq<CliCommand>, names: seq<string>, args: seq<string>, dev: bool)
    ensures Offers(commands, names, args, dev) ==> names != []
  {
  }

  lemma LeafKeyed(c: CliCommand, above: seq<string>, dev: bool, key: string)
    requires c.commands == []
    ensures KeyedFrom(c, above, dev, key) <==> (dev || !c.inDevelopment) && key == KeyOf(above + [c.name])
  {
    hide KeyOf;
    if names, args :| names != [] && OffersFrom(c, names, args, dev) && key == KeyOf(above + names) {
      if |names| > 1 {
        NothingOffered(names[1..], args, dev);
      }
      assert names == [c.name];
    }
    if dev || !c.inDevelopment {
      assert OffersFrom(c, [c.name], c.args, dev);
    }
  }

  lemma NothingOffered(names: seq<string>, args: seq<string>, dev: bool)
    ensures !Offers([], names, args, dev)
  {
  }

  lemma {:induction false} FlattenedKeys(domain: string, path: seq<string>, prefix: string, commands: seq<CliCommand>, dev: bool, key: string)
    requires Spells(prefix, path) && (forall n :: n in path ==> n != "") && NamesOk(commands)
    ensures key in FlattenKeys(domain, prefix, commands, !dev) <==> Keyed(commands, [domain] + path, dev, key)
    decreases commands
  {
    hide FlattenCommand, Spells, NamesOkBelow, Keyed, KeyedFrom;
    KeyedCons(commands, [domain] + path, dev, key);
    if commands != [] {
      assert NamesOkBelow(commands[0]);
      FlattenedKeysOfOne(domain, path, prefix, commands[0], dev, key);
      FlattenedKeys(domain, path, prefix, commands[1..], dev, key);
    }
  }

  lemma {:induction false} FlattenedKeysOfOne(domain: string, path: seq<string>, prefix: string, c: CliCommand, dev: bool, key: string)
    requires Spells(prefix, path) && (forall n :: n in path ==> n != "") && NamesOkBelow(c)
    ensures key in FlattenCommand(domain, prefix, c, !dev) <==> KeyedFrom(c, [domain] + path, dev, key)
    decreases c
  {
    NameIsNotEmpty(c.name);
    DottedSpells(prefix, path, c.name);
    var full, below := Dotted(prefix, c.name), path + [c.name];
    hide KeyOf, Spells, NameOk, NamesOk, CommandKey, Dotted, Keyed, KeyedFrom, FlattenKeys;
    assert [domain] + below == [domain] + path + [c.name];
    if c.commands != [] {
      FlattenedKeys(domain, below, full, c.commands, dev, key);
      GroupKeyed(c, [domain] + path, dev, key);
    } else {
      KeyOfCommand(domain, full, below);
      LeafKeyed(c, [domain] + path, dev, key);
    }
  }

  /** Somewhere in the schema a leaf command has these names, its domain's first; `dev` is whether what is in development counts. */
  ghost predicate Has(schema: seq<CliDomain>, names: seq<string>, dev: bool) {
    && |names| >= 2
    && exists d, args :: d in schema && d.name == names[0] && (dev || !d.inDevelopment) && Offers(d.commands, names[1..], args, dev)
  }

  /** The stamped keys are those of all leaf commands; the published ones those with nothing in development on the way. */
  lemma {:induction false} KeysExactly(schema: seq<CliDomain>, key: string)
    requires SchemaNamesOk(schema)
    ensures key in AllKeys(schema) <==> exists names :: Has(schema, names, true) && key == KeyOf(names)
    ensures key in PublishedKeys(schema) <==> exists names :: Has(schema, names, false) && key == KeyOf(names)
  {
    hide FlattenKeys, KeyOf, Offers, NamesOk, NameOk;
    if schema != [] {
      var d, rest := schema[0], schema[1..];
      KeysExactly(rest, key);
      DomainKeys(d, true, key);
      DomainKeys(d, false, key);
      forall names, dev ensures Has(schema, names, dev) <==> HasIn(d, names, dev) || Has(rest, names, dev) {
        assert forall x :: x in schema <==> x == d || x in rest;
      }
    }
  }

  ghost predicate HasIn(d: CliDomain, names: seq<string>, dev: bool) {
    |names| >= 2 && d.name == names[0] && (dev || !d.inDevelopment) && exists args :: Offers(d.commands, names[1..], args, dev)
  }

  lemma DomainKeys(d: CliDomain, dev: bool, key: string)
    requires NameOk(d.name) && NamesOk(d.commands)
    ensures (dev || !d.inDevelopment) && key in FlattenKeys(d.name, "", d.commands, !dev) <==>
            exists names :: HasIn(d, names, dev) && key == KeyOf(names)
  {
    FlattenedKeys(d.name, [], "", d.commands, dev, key);
    hide FlattenKeys, KeyOf, Offers, NamesOk, NameOk;
    if names, args :| Offers(d.commands, names, args, dev) && key == KeyOf([d.name] + [] + names) {
      var all := [d.name] + names;
      OffersSomething(d.commands, names, args, dev);
      assert [d.name] + [] + names == all && all[1..] == names;
      assert dev || !d.inDevelopment ==> HasIn(d, all, dev);
    }
    if names :| HasIn(d, names, dev) && key == KeyOf(names) {
      var args :| Offers(d.commands, names[1..], args, dev);
      assert names == [d.name] + [] + names[1..];
    }
  }

  // ----- the surface of any tree

  /** Some command that runs something can be typed with these names. */
  ghost predicate Typed(trees: seq<Tree>, names: seq<string>) {
    exists run, rule :: Runs(trees, names, run, rule)
  }

  ghost predicate TypedFrom(t: Tree, names: seq<string>) {
    names != [] && exists run, rule :: RunsFrom(t, names, run, rule)
  }

  lemma TypedCons(trees: seq<Tree>, names: seq<string>)
    ensures Typed(trees, names) <==> trees != [] && (TypedFrom(trees[0], names) || Typed(trees[1..], names))
  {
    hide RunsFrom;
    if run, rule :| Runs(trees, names, run, rule) {
      var t :| t in trees && RunsFrom(t, names, run, rule);
      assert t == trees[0] || t in trees[1..];
      assert t != trees[0] ==> Runs(trees[1..], names, run, rule);
    }
    if trees != [] {
      if run, rule :| names != [] && RunsFrom(trees[0], names, run, rule) {
        assert trees[0] in trees;
        assert Runs(trees, names, run, rule);
      }
      if run, rule :| Runs(trees[1..], names, run, rule) {
        assert forall x :: x in trees[1..] ==> x in trees;
        assert Runs(trees, names, run, rule);
      }
    }
  }

  predicate Visible(t: Tree) {
    !t.hidden && Name(t.use) != "help" && Name(t.use) != "completion"
  }

  lemma TypedFromIs(t: Tree, names: seq<string>)
    requires names != []
    ensures TypedFrom(t, names) <==>
            Name(t.use) == names[0] && Visible(t) && if |names| == 1 then t.children == [] && t.run != NoRun else Typed(t.children, names[1..])
  {
    hide Name;
    if run, rule :| RunsFrom(t, names, run, rule) {
      assert |names| > 1 ==> Runs(t.children, names[1..], run, rule);
    }
    if |names| == 1 && t.children == [] && t.run != NoRun && Name(t.use) == names[0] && Visible(t) {
      assert RunsFrom(t, names, t.run, t.args);
    }
    if |names| > 1 && Name(t.use) == names[0] && Visible(t) {
      if run, rule :| Runs(t.children, names[1..], run, rule) {
        assert RunsFrom(t, names, run, rule);
      }
    }
  }

  /** The paths on the surface are the names that can be typed. */
  lemma {:induction false} PathsAreTyped(trees: seq<Tree>, above: seq<string>, names: seq<string>)
    ensures above + names in CommandStatus.Paths(trees, above) <==> Typed(trees, names)
    decreases trees
  {
    hide CommandStatus.PathsOf, Typed, TypedFrom;
    TypedCons(trees, names);
    if trees != [] {
      PathsOfAreTyped(trees[0], above, names);
      PathsAreTyped(trees[1..], above, names);
    }
  }

  lemma {:induction false} PathsOfAreTyped(t: Tree, above: seq<string>, names: seq<string>)
    ensures above + names in CommandStatus.PathsOf(t, above) <==> TypedFrom(t, names)
    decreases t
  {
    CommandStatus.PathsOfExtend(t, above);
    var path := above + [Name(t.use)];
    CommandStatus.PathsExtend(t.children, path);
    if names != [] && names[0] == Name(t.use) {
      TypedFromIs(t, names);
      assert names == [names[0]] + names[1..];
      assert above + names == path + names[1..];
      PathsAreTyped(t.children, path, names[1..]);
      NoneTyped(t.children);
      hide CommandStatus.Paths, Name, Typed, TypedFrom;
      if |names| == 1 {
        assert names[1..] == [] && above + names == path;
      } else {
        assert |above + names| != |path|;
      }
    } else {
      assert names != [] ==> (above + names)[|above|] == names[0];
      assert path[|above|] == Name(t.use);
      if names != [] {
        TypedFromIs(t, names);
      }
    }
  }

  lemma NoneTyped(trees: seq<Tree>)
    ensures !Typed(trees, [])
  {
  }

  lemma {:induction false} DotAllIsKey(names: seq<string>)
    requires names != [] && forall n :: n in names ==> n != ""
    ensures CommandStatus.DotAll(names) == KeyOf(names) != ""
    decreases |names|
  {
    var front, last := names[..|names| - 1], names[|names| - 1];
    assert names == front + [last] && last in names;
    KeyOfSnoc(front, last);
    if front == [] {
      assert CommandStatus.DotAll(front) == "";
    } else {
      assert forall n :: n in front ==> n in names;
      DotAllIsKey(front);
    }
  }

  // ----- the use line

  /** A list of words with blanks between them. */
  function Spaced(words: seq<string>): string {
    if words == [] then "" else if |words| == 1 then words[0] else words[0] + " " + Spaced(words[1..])
  }

  function InAngles(args: seq<string>): (words: seq<string>)
    ensures |words| == |args| && forall i :: 0 <= i < |args| ==> words[i] == "<" + args[i] + ">"
  {
    seq(|args|, i requires 0 <= i < |args| => "<" + args[i] + ">")
  }

  /** The use line: the command's name and its arguments in angle brackets, in order. */
  lemma UseLineReads(cmd: CliCommand)
    ensures UseString(cmd) == Spaced([cmd.name] + InAngles(cmd.args))
  {
    SpacedArgs(cmd.name, cmd.args);
  }

  lemma {:induction false} SpacedArgs(first: string, args: seq<string>)
    ensures first + ArgsText(args) == Spaced([first] + InAngles(args))
    decreases |args|
  {
    var words := InAngles(args);
    if args == [] {
      assert [first] + words == [first] && first + "" == first;
    } else {
      var word, rest := "<" + args[0] + ">", args[1..];
      SpacedArgs(word, rest);
      assert words == [word] + InAngles(rest);
      assert ([first] + words)[1..] == words;
      hide Spaced, InAngles;
      assert ArgsText(args) == " " + (word + ArgsText(rest));
      assert first + (" " + (word + ArgsText(rest))) == first + " " + (word + ArgsText(rest));
    }
  }
}
