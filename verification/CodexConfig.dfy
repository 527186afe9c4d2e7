/**
 * `lw config harness apply` on the Codex config: the shell-environment section, then the
 * Lightwave MCP server table, then the desktop worktree root. The TOML library is a parameter.
 */
module CodexConfig {
  import opened Text
  import opened SectionEditor

  /** A decoded TOML table; a value is known by its rendered text. */
  type Table = map<string, string>

  /**
   * The TOML library: whether a text parses, the mcp_servers.lightwave table a text holds (empty if
   * none), the rendering of {mcp_servers: {lightwave: table}}, and whether a value holds a list of
   * tables, which is rendered under [[...]] lines.
   */
  datatype Toml = Toml(valid: string -> bool, server: string -> Table, marshal: Table -> string, lists: string -> bool)

  datatype Root = NoRoot | NotText | Path(path: string)

  /** What the harness fragment asks for. */
  datatype Fragment = Fragment(settings: map<string, string>, server: Option<Table>, root: Root)

  const TRANSPORT: seq<string> := ["command", "args", "env", "cwd", "env_vars", "url", "http_headers", "env_http_headers", "bearer_token_env_var"]

  const SHELL_SECTION := "shell_environment_policy.set"

  const DESKTOP_SECTION := "desktop"

  const ROOT_KEY := "git-worktree-root"

  predicate IsPolicy(key: string) {
    key == "tools" || key == "enabled_tools" || key == "disabled_tools"
  }

  // ----- merging the server's fields

  /** Whether the fragment's value for a key is taken: operator policy already present wins over it. */
  predicate TakesDesired(key: string, existing: Table, desired: Table) {
    key in desired && !(IsPolicy(key) && key in existing)
  }

  function Merge(existing: Table, desired: Table): Table {
    map k | k in existing.Keys + desired.Keys && (TakesDesired(k, existing, desired) || (k in existing && k !in TRANSPORT)) ::
      if TakesDesired(k, existing, desired) then desired[k] else existing[k]
  }

  /** The field merge of ensureCodexMCP: copy, delete the transport fields, overlay the fragment. */
  method MergeServer(existing: Table, desired: Table) returns (merged: Table)
    ensures merged == Merge(existing, desired)
  {
    hide IsPolicy;
    merged := CopyTable(existing);
    merged := DeleteKeys(merged, TRANSPORT);
    merged := Overlay(merged, existing, desired);
  }

  method CopyTable(table: Table) returns (copy: Table)
    ensures copy == table
  {
    copy := map[];
    var todo := table.Keys;
    while todo != {}
      invariant todo <= table.Keys
      invariant copy == map k | k in table && k !in todo :: table[k]
      decreases todo
    {
      var k :| k in todo;
      copy := copy[k := table[k]];
      todo := todo - {k};
    }
  }

  method DeleteKeys(table: Table, keys: seq<string>) returns (left: Table)
    ensures left == map k | k in table && k !in keys :: table[k]
  {
    left := table;
    for i := 0 to |keys|
      invariant left == map k | k in table && k !in keys[..i] :: table[k]
    {
      left := left - {keys[i]};
    }
    assert keys[..|keys|] == keys;
  }

  /** The loop over the fragment's fields, which leaves operator policy alone. */
  method Overlay(base: Table, existing: Table, desired: Table) returns (merged: Table)
    ensures merged.Keys == base.Keys + set k | k in desired && TakesDesired(k, existing, desired)
    ensures forall k :: k in merged ==> merged[k] == if TakesDesired(k, existing, desired) then desired[k] else base[k]
  {
    hide IsPolicy;
    merged := base;
    var todo := desired.Keys;
    while todo != {}
      invariant todo <= desired.Keys
      invariant merged.Keys == base.Keys + set k | k in desired && k !in todo && TakesDesired(k, existing, desired)
      invariant forall k :: k in merged ==>
                  merged[k] == if k !in todo && TakesDesired(k, existing, desired) then desired[k] else base[k]
      decreases todo
    {
      var k :| k in todo;
      if !(IsPolicy(k) && k in existing) {
        merged := merged[k := desired[k]];
      }
      todo := todo - {k};
    }
  }

  // ----- dropping the owned tables

  /** A line the filter takes for a table header. */
  predicate IsTableLine(line: string) {
    "[" <= Trim(line)
  }

  function Unquoted(s: string): string {
    if s == "" then "" else (if s[0] == '\"' || s[0] == '\'' then "" else [s[0]]) + Unquoted(s[1..])
  }

  /** The header of the server's own table or of one of its sub-tables. */
  predicate IsOwnedHeader(line: string) {
    var h := Unquoted(Trim(line));
    h == "[mcp_servers.lightwave]" || "[mcp_servers.lightwave." <= h
  }

  function DropAfter(line: string, drop: bool): bool {
    if IsTableLine(line) then IsOwnedHeader(line) else drop
  }

  /** The lines outside the owned tables. */
  function Kept(lines: seq<string>, drop: bool): seq<string> {
    if lines == [] then [] else
      var d := DropAfter(lines[0], drop);
      (if d then [] else [lines[0]]) + Kept(lines[1..], d)
  }

  /** The filter loop with its `drop` flag. */
  method DropOwned(lines: seq<string>) returns (kept: seq<string>)
    ensures kept == Kept(lines, false)
  {
    hide IsTableLine, IsOwnedHeader, Kept;
    kept := [];
    var drop := false;
    for i := 0 to |lines|
      invariant kept + Kept(lines[i..], drop) == Kept(lines, false)
    {
      KeptAt(lines, i, drop);
      if IsTableLine(lines[i]) {
        drop := IsOwnedHeader(lines[i]);
      }
      if !drop {
        kept := kept + [lines[i]];
      }
    }
    assert lines[|lines|..] == [];
    NothingKept(drop);
  }

  lemma NothingKept(drop: bool)
    ensures Kept([], drop) == []
  {
  }

  lemma KeptAt(lines: seq<string>, i: nat, drop: bool)
    requires i < |lines|
    ensures var d := DropAfter(lines[i], drop);
      Kept(lines[i..], drop) == (if d then [] else [lines[i]]) + Kept(lines[i + 1..], d)
  {
    hide DropAfter;
    assert lines[i..][1..] == lines[i + 1..];
  }

  // ----- the three steps

  function TrimPrefix(s: string, prefix: string): string {
    if prefix <= s then s[|prefix|..] else s
  }

  function TrimLeadingNewlines(s: string): string {
    if s != "" && s[0] == '\n' then TrimLeadingNewlines(s[1..]) else s
  }

  function OwnedText(lib: Toml, table: Table): string {
    TrimLeadingNewlines(TrimPrefix(lib.marshal(table), "[mcp_servers]\n"))
  }

  /** The config without the owned tables, and the rendered table behind it. */
  function WithServer(lib: Toml, current: string, table: Table): string {
    TrimNewlines(Join(Kept(Split(TrimNewlines(current)), false))) + "\n\n" + OwnedText(lib, table)
  }

  function McpText(lib: Toml, current: string, desired: Table): string {
    WithServer(lib, current, Merge(lib.server(current), desired))
  }

  function McpResult(lib: Toml, current: string, server: Option<Table>): Result<string> {
    if server == None then Ok(current)
    else if !lib.valid(current) then Err
    else if !lib.valid(McpText(lib, current, server.value)) then Err
    else Ok(McpText(lib, current, server.value))
  }

  /** ensureCodexMCP, given the fragment's server table. */
  method EnsureMcp(lib: Toml, current: string, server: Option<Table>) returns (r: Result<string>)
    ensures r == McpResult(lib, current, server)
  {
    if server == None {
      return Ok(current);
    }
    if !lib.valid(current) {
      return Err;
    }
    var lines := Split(TrimNewlines(current));
    var merged := MergeServer(lib.server(current), server.value);
    var kept := DropOwned(lines);
    var next := TrimNewlines(Join(kept)) + "\n\n" + OwnedText(lib, merged);
    r := if lib.valid(next) then Ok(next) else Err;
  }

  function RootSettings(path: string): map<string, string> {
    map[ROOT_KEY := path]
  }

  function RootResult(current: string, root: Root): Result<string> {
    match root
    case NoRoot => Ok(current)
    case NotText => Err
    case Path(path) => if "/" <= path then Ok(Edited(current, DESKTOP_SECTION, RootSettings(path))) else Err
  }

  /** ensureCodexWorktreeRoot */
  method EnsureWorktreeRoot(current: string, root: Root) returns (r: Result<string>)
    ensures r == RootResult(current, root)
  {
    if root == NoRoot {
      return Ok(current);
    }
    if root == NotText || !("/" <= root.path) {
      return Err;
    }
    var next := EnsureSection(current, DESKTOP_SECTION, RootSettings(root.path));
    r := Ok(next);
  }

  function Applied(lib: Toml, current: string, fragment: Fragment): Result<string> {
    var shell := Edited(current, SHELL_SECTION, fragment.settings);
    var mcp := McpResult(lib, shell, fragment.server);
    if mcp.Err? then Err else
    var done := RootResult(mcp.value, fragment.root);
    if done.Err? || !lib.valid(done.value) then Err else done
  }

  /** The pipeline inside applyCodexHarness; the fragment's settings are not empty (codexFragmentSettings). */
  method Apply(lib: Toml, current: string, fragment: Fragment) returns (r: Result<string>)
    ensures r == Applied(lib, current, fragment)
  {
    var next := EnsureSection(current, SHELL_SECTION, fragment.settings);
    var mcp := EnsureMcp(lib, next, fragment.server);
    if mcp.Err? {
      return Err;
    }
    var done := EnsureWorktreeRoot(mcp.value, fragment.root);
    if done.Err? || !lib.valid(done.value) {
      return Err;
    }
    r := done;
  }
}
