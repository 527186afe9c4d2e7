/** The handler registry and the drift gate between the schema, the registry and the surface. */
module DriftGate {
  import opened Text
  import opened CommandTree
  import opened Dispatcher

  // ----- the registry

  /** handlerRegistry, keyed by "<domain>.<command>". */
  class Registry {
    var keys: set<string>

    constructor ()
      ensures keys == {}
    {
      keys := {};
    }

    /** RegisterHandler: a duplicate key or a nil handler panics and registers nothing. */
    method Register(key: string, isNil: bool) returns (ok: bool)
      modifies this
      ensures ok <==> key !in old(keys) && !isNil
      ensures keys == if ok then old(keys) + {key} else old(keys)
    {
      if key in keys {
        return false;
      }
      if isNil {
        return false;
      }
      keys := keys + {key};
      return true;
    }

    /** LookupHandler */
    method Lookup(key: string) returns (found: bool)
      ensures found <==> key in keys
    {
      found := key in keys;
    }

    /** RegisteredKeys: a sorted snapshot. */
    method RegisteredKeys() returns (sorted: seq<string>)
      ensures IsSorted(sorted) && multiset(sorted) == multiset(keys)
    {
      hide SortStrings, IsSorted;
      sorted := [];
      var todo := keys;
      while todo != {}
        invariant todo <= keys && multiset(sorted) + multiset(todo) == multiset(keys)
        decreases todo
      {
        var k :| k in todo;
        sorted := sorted + [k];
        todo := todo - {k};
      }
      SortSorts(sorted);
      sorted := SortStrings(sorted);
    }
  }

  // ----- the gate

  function Without(keys: seq<string>, known: set<string>): seq<string> {
    if keys == [] then [] else (if keys[0] in known then [] else [keys[0]]) + Without(keys[1..], known)
  }

  function AsSet(keys: seq<string>): set<string> {
    set k | k in keys
  }

  /** ComputeSchemaDrift: published but not registered, registered but not stamped, exposed but not stamped. */
  method ComputeSchemaDrift(published: seq<string>, stamped: seq<string>, registered: seq<string>, surface: seq<string>)
    returns (missing: seq<string>, orphaned: seq<string>, unstamped: seq<string>)
    ensures IsSorted(missing) && multiset(missing) == multiset(Without(published, AsSet(registered)))
    ensures IsSorted(orphaned) && multiset(orphaned) == multiset(Without(registered, AsSet(stamped)))
    ensures IsSorted(unstamped) && multiset(unstamped) == multiset(Without(surface, AsSet(stamped)))
  {
    hide SortStrings, IsSorted, Without;
    var stampedSet := MakeSet(stamped);
    var registrySet := MakeSet(registered);
    missing := Filter(published, registrySet);
    orphaned := Filter(registered, stampedSet);
    unstamped := Filter(surface, stampedSet);
    SortSorts(missing);
    SortSorts(orphaned);
    SortSorts(unstamped);
    missing, orphaned, unstamped := SortStrings(missing), SortStrings(orphaned), SortStrings(unstamped);
  }

  method MakeSet(keys: seq<string>) returns (s: set<string>)
    ensures s == AsSet(keys)
  {
    s := {};
    for i := 0 to |keys|
      invariant s == AsSet(keys[..i])
    {
      assert keys[..i + 1] == keys[..i] + [keys[i]];
      s := s + {keys[i]};
    }
    assert keys[..|keys|] == keys;
  }

  method Filter(keys: seq<string>, known: set<string>) returns (out: seq<string>)
    ensures out == Without(keys, known)
  {
    hide Without;
    out := [];
    assert Without([], known) == [] by { WithoutNothing(known); }
    for i := 0 to |keys|
      invariant out == Without(keys[..i], known)
    {
      assert keys[..i + 1] == keys[..i] + [keys[i]];
      WithoutSnoc(keys[..i], keys[i], known);
      if keys[i] !in known {
        out := out + [keys[i]];
      }
    }
    assert keys[..|keys|] == keys;
  }

  lemma WithoutNothing(known: set<string>)
    ensures Without([], known) == []
  {
  }

  lemma {:induction false} WithoutSnoc(keys: seq<string>, key: string, known: set<string>)
    ensures Without(keys + [key], known) == Without(keys, known) + if key in known then [] else [key]
  {
    if keys == [] {
      assert keys + [key] == [key];
      assert Without([key][1..], known) == [];
    } else {
      assert (keys + [key])[1..] == keys[1..] + [key];
      WithoutSnoc(keys[1..], key, known);
    }
  }

  // ----- what the gate's verdict says about the tree

  lemma {:induction false} WithoutIsComplement(keys: seq<string>, known: set<string>)
    ensures |Keep(keys, known)| + |Without(keys, known)| == |keys|
    ensures Without(keys, known) == [] <==> Keep(keys, known) == keys
    ensures Without(keys, known) == [] <==> forall k :: k in keys ==> k in known
    ensures forall k :: k in Keep(keys, known) <==> k in keys && k in known
  {
    if keys != [] {
      WithoutIsComplement(keys[1..], known);
      assert keys == [keys[0]] + keys[1..];
      if keys[0] !in known { assert |Keep(keys, known)| < |keys|; }
    }
  }

  /** With no override and no in_development domain asked for, the dispatched keys are the published ones that have a handler. */
  lemma {:induction false} DispatchedIsPublished(schema: seq<CliDomain>, registry: set<string>)
    ensures DispatchedKeys(schema, registry, {}, false) == Keep(PublishedKeys(schema), registry)
  {
    hide FlattenKeys, Keep;
    if schema == [] {
      KeepNothing(registry);
    } else {
      var d := schema[0];
      DispatchedIsPublished(schema[1..], registry);
      KeepNothing(registry);
      KeepConcat(if d.inDevelopment then [] else FlattenKeys(d.name, "", d.commands, true), PublishedKeys(schema[1..]), registry);
    }
  }

  lemma KeepNothing(registry: set<string>)
    ensures Keep([], registry) == []
  {
  }

  lemma {:induction false} SkippingDropsKeys(domain: string, prefix: string, commands: seq<CliCommand>, key: string)
    requires key in FlattenKeys(domain, prefix, commands, true)
    ensures key in FlattenKeys(domain, prefix, commands, false)
    decreases commands
  {
    hide FlattenCommand;
    if key in FlattenCommand(domain, prefix, commands[0], true) {
      SkippingDropsKeysOfOne(domain, prefix, commands[0], key);
    } else {
      SkippingDropsKeys(domain, prefix, commands[1..], key);
    }
  }

  lemma {:induction false} SkippingDropsKeysOfOne(domain: string, prefix: string, cmd: CliCommand, key: string)
    requires key in FlattenCommand(domain, prefix, cmd, true)
    ensures key in FlattenCommand(domain, prefix, cmd, false)
    decreases cmd
  {
    hide FlattenKeys;
    if cmd.commands != [] { SkippingDropsKeys(domain, Dotted(prefix, cmd.name), cmd.commands, key); }
  }

  /** Published keys are stamped. */
  lemma {:induction false} PublishedIsStamped(schema: seq<CliDomain>, key: string)
    requires key in PublishedKeys(schema)
    ensures key in AllKeys(schema)
  {
    hide FlattenKeys;
    var d := schema[0];
    if !d.inDevelopment && key in FlattenKeys(d.name, "", d.commands, true) {
      SkippingDropsKeys(d.name, "", d.commands, key);
    } else {
      PublishedIsStamped(schema[1..], key);
    }
  }

  /** The surface of a tree built from the schema alone. */
  function BuiltSurface(schema: seq<CliDomain>, registry: set<string>): seq<string> {
    Surface(DomainTrees(schema, registry, {}, false), "")
  }

  lemma BuiltSurfaceIsKept(schema: seq<CliDomain>, registry: set<string>)
    requires SchemaNamesOk(schema)
    ensures BuiltSurface(schema, registry) == Keep(PublishedKeys(schema), registry)
  {
    hide DomainTrees, Surface, DispatchedKeys;
    DomainSurface(schema, registry, {}, false);
    DispatchedIsPublished(schema, registry);
  }

  /**
   * The gate means what it says: it reports nothing missing exactly when the surface is the list of
   * published keys, and whatever it reports missing the surface holds no key that is not stamped.
   */
  lemma NothingMissingMeansPublished(schema: seq<CliDomain>, registry: set<string>)
    requires SchemaNamesOk(schema)
    ensures Without(PublishedKeys(schema), registry) == [] <==> BuiltSurface(schema, registry) == PublishedKeys(schema)
    ensures Without(PublishedKeys(schema), registry) == [] <==> multiset(BuiltSurface(schema, registry)) == multiset(PublishedKeys(schema))
    ensures Without(BuiltSurface(schema, registry), AsSet(AllKeys(schema))) == []
  {
    hide DomainTrees, Surface, PublishedKeys, BuiltSurface;
    BuiltSurfaceIsKept(schema, registry);
    var published, surface := PublishedKeys(schema), BuiltSurface(schema, registry);
    WithoutIsComplement(published, registry);
    WithoutIsComplement(surface, AsSet(AllKeys(schema)));
    forall k | k in surface ensures k in AsSet(AllKeys(schema)) { PublishedIsStamped(schema, k); }
    assert |multiset(surface)| == |surface| && |multiset(published)| == |published|;
  }

  /** The gate, run on a tree built from the schema: if it passes, the surface is what was published and all of it is stamped. */
  method CheckBuiltTree(root: Command, schema: seq<CliDomain>, registry: Registry)
    returns (missing: seq<string>, orphaned: seq<string>, unstamped: seq<string>)
    requires root.Valid() && root.tree.children == [] && SchemaNamesOk(schema) && registry !in root.repr
    modifies root
    ensures root.Valid()
    ensures unstamped == []
    ensures missing == [] <==> multiset(Surface(root.tree.children, "")) == multiset(PublishedKeys(schema))
    ensures orphaned == [] <==> registry.keys <= AsSet(AllKeys(schema))
  {
    hide Surface, DomainTrees, FlattenKeys, IsSorted, SchemaNamesOk, Without;
    BuildDispatched(root, Some(schema), registry.keys, {}, false);
    assert [] + DomainTrees(schema, registry.keys, {}, false) == DomainTrees(schema, registry.keys, {}, false);
    var registered := registry.RegisteredKeys();
    var surface := SurfaceKeys(root);
    missing, orphaned, unstamped := ComputeSchemaDrift(PublishedKeys(schema), AllKeys(schema), registered, surface);
    MembersOf(registered, registry.keys);
    NothingMissingMeansPublished(schema, registry.keys);
    WithoutIsComplement(registered, AsSet(AllKeys(schema)));
    EmptyByMultiset(missing, Without(PublishedKeys(schema), registry.keys));
    EmptyByMultiset(orphaned, Without(registered, AsSet(AllKeys(schema))));
    SameMembers(surface, BuiltSurface(schema, registry.keys), AsSet(AllKeys(schema)));
    EmptyByMultiset(unstamped, Without(surface, AsSet(AllKeys(schema))));
  }

  lemma MembersOf(keys: seq<string>, s: set<string>)
    requires multiset(keys) == multiset(s)
    ensures AsSet(keys) == s
  {
    forall k ensures k in keys <==> k in s {
      assert k in keys <==> k in multiset(keys);
    }
  }

  lemma EmptyByMultiset(a: seq<string>, b: seq<string>)
    requires multiset(a) == multiset(b)
    ensures a == [] <==> b == []
  {
    assert |multiset(a)| == |a| && |multiset(b)| == |b|;
  }

  lemma SameMembers(a: seq<string>, b: seq<string>, known: set<string>)
    requires multiset(a) == multiset(b)
    ensures Without(a, known) == [] <==> Without(b, known) == []
  {
    WithoutIsComplement(a, known);
    WithoutIsComplement(b, known);
    forall k ensures k in a <==> k in b {
      assert k in a <==> k in multiset(a);
      assert k in b <==> k in multiset(b);
    }
  }

  // ----- landing a handler early

  lemma {:induction false} KeepIgnores(keys: seq<string>, registry: set<string>, key: string)
    requires key !in keys
    ensures Keep(keys, registry + {key}) == Keep(keys, registry) && Without(keys, registry + {key}) == Without(keys, registry)
  {
    if keys != [] {
      assert keys[0] in keys;
      KeepIgnores(keys[1..], registry, key);
    }
  }

  /**
   * Registering the handler of an entry still in development adds no orphan, no missing key and no
   * command to the surface.
   */
  lemma DevelopmentHandlerIsQuiet(schema: seq<CliDomain>, registered: seq<string>, registry: set<string>, key: string)
    requires SchemaNamesOk(schema) && key in AllKeys(schema) && key !in PublishedKeys(schema)
    ensures BuiltSurface(schema, registry + {key}) == BuiltSurface(schema, registry)
    ensures Without(PublishedKeys(schema), registry + {key}) == Without(PublishedKeys(schema), registry)
    ensures Without(registered + [key], AsSet(AllKeys(schema))) == Without(registered, AsSet(AllKeys(schema)))
  {
    hide DomainTrees, Surface, PublishedKeys, AllKeys, BuiltSurface;
    BuiltSurfaceIsKept(schema, registry);
    BuiltSurfaceIsKept(schema, registry + {key});
    KeepIgnores(PublishedKeys(schema), registry, key);
    WithoutSnoc(registered, key, AsSet(AllKeys(schema)));
  }
}
