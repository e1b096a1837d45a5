/**
 Agent discovery: the list of all subagents on one side, the look-up of one agent by
 name on the other. They are written independently and must agree: what is listed can
 be called, and is what was listed.
 */
module AgentDiscovery {
  import opened Common

  datatype Scope = Project | User | Bundled | BuiltIn

  datatype Definition = Definition(name: string, description: string, scope: Scope)

  datatype Builtin =
    | HystersisBuild | HystersisBuildConcise | HystersisBuildPlan | HystersisBuildPlanNoSubagents
    | HystersisBuildAskUser
    | Codex | Opencode | GeneralPurpose | Explore | Plan | BrowserUse | HystersisBuildOrchestrator

  function NameOf(b: Builtin): string {
    match b
    case HystersisBuild => "hystersis-build"
    case HystersisBuildConcise => "hystersis-build-concise"
    case HystersisBuildPlan => "hystersis-build-plan"
    case HystersisBuildPlanNoSubagents => "hystersis-build-plan-no-subagents"
    case HystersisBuildAskUser => "hystersis-build-ask-user"
    case Codex => "codex"
    case Opencode => "opencode"
    case GeneralPurpose => "general-purpose"
    case Explore => "explore"
    case Plan => "plan"
    case BrowserUse => "browser-use"
    case HystersisBuildOrchestrator => "hystersis-orchestrator"
  }

  const AllBuiltins: seq<Builtin> :=
    [HystersisBuild, HystersisBuildConcise, HystersisBuildPlan, HystersisBuildPlanNoSubagents, HystersisBuildAskUser,
     Codex, Opencode, GeneralPurpose, Explore, Plan, BrowserUse, HystersisBuildOrchestrator]

  const SubagentVariants: seq<Builtin> := [GeneralPurpose, Explore, Plan]

  /** The first of `builtins` with this name. */
  function Named(builtins: seq<Builtin>, name: string): (b: Option<Builtin>)
    ensures b.Some? ==> b.value in builtins && NameOf(b.value) == name
    ensures b.None? ==> forall c :: c in builtins ==> NameOf(c) != name
  {
    if builtins == [] then None
    else if NameOf(builtins[0]) == name then Some(builtins[0])
    else Named(builtins[1..], name)
  }

  function FromStr(name: string): Option<Builtin> {
    Named(AllBuiltins, name)
  }

  lemma {:induction false} BuiltinNamesAreDistinct(b: Builtin, c: Builtin)
    requires NameOf(b) == NameOf(c)
    ensures b == c
  {
    assert |NameOf(b)| == |NameOf(c)|;
    assert |NameOf(b)| > 10 ==> NameOf(b)[10] == NameOf(c)[10];
    assert |NameOf(b)| > 0 ==> NameOf(b)[0] == NameOf(c)[0];
  }

  lemma {:induction false} FromStrOfName(b: Builtin)
    ensures FromStr(NameOf(b)) == Some(b)
  {
    hide NameOf;
    assert b in AllBuiltins;
    BuiltinNamesAreDistinct(FromStr(NameOf(b)).value, b);
  }

  /** The built-in subagent of this name, if it is one offered as a subagent. */
  function VariantOf(name: string): Option<Builtin> {
    var b := FromStr(name);
    if b.Some? && b.value in SubagentVariants then b else None
  }

  // ------------------------------------------------------------------ directories

  /** One directory entry: its stem, whether its extension is `md`, and what parses. */
  datatype AgentFile = AgentFile(stem: string, md: bool, parsed: Option<Definition>)

  /** The directories that exist, with their entries in listing order. */
  type FileSystem = map<string, seq<AgentFile>>

  type Search = seq<(string, Scope)>

  predicate UniqueStems(files: seq<AgentFile>) {
    forall i, j :: 0 <= i < j < |files| && files[i].md && files[j].md ==> files[i].stem != files[j].stem
  }

  /** The agent files that have the stem `name` are those that declare it. */
  predicate NamedAlike(files: seq<AgentFile>, name: string) {
    forall k :: 0 <= k < |files| && files[k].md && files[k].parsed.Some? ==>
      (files[k].stem == name <==> files[k].parsed.value.name == name)
  }

  function FilesIn(fs: FileSystem, dir: string): seq<AgentFile> {
    if dir in fs then fs[dir] else []
  }

  /** A directory holds no file twice, and the files that bear on `name` are named after their agents. */
  ghost predicate WellNamed(fs: FileSystem, name: string) {
    forall dir :: dir in fs ==> UniqueStems(fs[dir]) && NamedAlike(fs[dir], name)
  }

  /** User-level directories before bundled ones; the legacy home only where it differs. */
  function UserAgentDirs(home: Option<string>, hystersisHome: Option<string>): Search {
    var literal := if home.Some? then Some(home.value + "/.hystersis") else None;
    var legacy := if literal != hystersisHome then literal else None;
    (if hystersisHome.Some? then [(hystersisHome.value + "/agents", User)] else [])
    + (if legacy.Some? then [(legacy.value + "/agents", User)] else [])
    + (if home.Some? then [(home.value + "/.claude/agents", User)] else [])
    + (if hystersisHome.Some? then [(hystersisHome.value + "/bundled/agents", Bundled)] else [])
    + (if legacy.Some? then [(legacy.value + "/bundled/agents", Bundled)] else [])
  }

  function ProjectDirs(dirs: seq<string>): Search {
    seq(|dirs|, i requires 0 <= i < |dirs| => (dirs[i], Project))
  }

  // ---------------------------------------------------------------------- listing

  /** The first file that declares `name`, over directories and entries in order. */
  function FirstDeclaredIn(files: seq<AgentFile>, scope: Scope, name: string): Option<Definition> {
    if files == [] then None
    else if files[0].md && files[0].parsed.Some? && files[0].parsed.value.name == name then
      Some(files[0].parsed.value.(scope := scope))
    else FirstDeclaredIn(files[1..], scope, name)
  }

  function FirstDeclared(fs: FileSystem, search: Search, name: string): Option<Definition> {
    if search == [] then None
    else
      var here := FirstDeclaredIn(FilesIn(fs, search[0].0), search[0].1, name);
      if here.Some? then here else FirstDeclared(fs, search[1..], name)
  }

  predicate DistinctNames(defs: seq<Definition>) {
    forall i, j :: 0 <= i < j < |defs| ==> defs[i].name != defs[j].name
  }

  /** What counts for `name` once `search` and the first `files` of the next directory are read. */
  function Found(fs: FileSystem, search: Search, files: seq<AgentFile>, scope: Scope, name: string)
      : Option<Definition> {
    OrElse(FirstDeclared(fs, search, name), FirstDeclaredIn(files, scope, name))
  }

  /** One definition for each name found, and it is the first. */
  ghost predicate Holds(defs: seq<Definition>, fs: FileSystem, search: Search, files: seq<AgentFile>, scope: Scope) {
    && DistinctNames(defs)
    && (forall d :: d in defs ==> Found(fs, search, files, scope, d.name) == Some(d))
    && (forall n :: Found(fs, search, files, scope, n).Some? ==> Found(fs, search, files, scope, n).value in defs)
  }

  predicate SeenAll(defs: seq<Definition>, seen: set<string>) {
    (forall d :: d in defs ==> d.name in seen) && (forall n :: n in seen ==> exists d :: d in defs && d.name == n)
  }

  function OrElse(first: Option<Definition>, second: Option<Definition>): Option<Definition> {
    if first.Some? then first else second
  }

  lemma {:induction false} FirstDeclaredInName(files: seq<AgentFile>, scope: Scope, name: string)
    ensures var d := FirstDeclaredIn(files, scope, name); d.Some? ==> d.value.name == name && d.value.scope == scope
  {
    if files != [] {
      FirstDeclaredInName(files[1..], scope, name);
    }
  }

  lemma {:induction false} FirstDeclaredInAppend(files: seq<AgentFile>, file: AgentFile, scope: Scope, name: string)
    ensures FirstDeclaredIn(files + [file], scope, name)
         == OrElse(FirstDeclaredIn(files, scope, name), FirstDeclaredIn([file], scope, name))
  {
    if files == [] {
      assert files + [file] == [file];
    } else {
      assert (files + [file])[1..] == files[1..] + [file];
      FirstDeclaredInAppend(files[1..], file, scope, name);
    }
  }

  lemma {:induction false} FirstDeclaredAppend(fs: FileSystem, search: Search, dir: (string, Scope), name: string)
    ensures FirstDeclared(fs, search + [dir], name)
         == OrElse(FirstDeclared(fs, search, name), FirstDeclaredIn(FilesIn(fs, dir.0), dir.1, name))
  {
    if search == [] {
      assert search + [dir] == [dir] && [dir][1..] == [];
    } else {
      assert (search + [dir])[1..] == search[1..] + [dir];
      FirstDeclaredAppend(fs, search[1..], dir, name);
    }
  }

  lemma {:induction false} FirstDeclaredName(fs: FileSystem, search: Search, name: string)
    ensures var d := FirstDeclared(fs, search, name); d.Some? ==> d.value.name == name
  {
    if search != [] {
      FirstDeclaredInName(FilesIn(fs, search[0].0), search[0].1, name);
      FirstDeclaredName(fs, search[1..], name);
    }
  }

  /** The definition a directory entry gives, if it gives one. */
  function Loaded(file: AgentFile, scope: Scope): Option<Definition> {
    if file.md && file.parsed.Some? then Some(file.parsed.value.(scope := scope)) else None
  }

  lemma {:induction false} FoundOneMore(fs: FileSystem, search: Search, files: seq<AgentFile>, file: AgentFile,
                                        scope: Scope, name: string)
    ensures var before := Found(fs, search, files, scope, name);
            var def := Loaded(file, scope);
            && Found(fs, search, files + [file], scope, name)
               == (if before.None? && def.Some? && def.value.name == name then def else before)
            && (before.Some? ==> before.value.name == name)
  {
    FirstDeclaredInAppend(files, file, scope, name);
    FirstDeclaredName(fs, search, name);
    FirstDeclaredInName(files, scope, name);
    assert FirstDeclaredIn([file][1..], scope, name) == None;
  }

  /** One more file: kept when no earlier one declares its name. */
  lemma {:induction false} OneMoreFile(defs: seq<Definition>, seen: set<string>, fs: FileSystem, search: Search,
                                       files: seq<AgentFile>, file: AgentFile, scope: Scope)
    requires Holds(defs, fs, search, files, scope) && SeenAll(defs, seen)
    ensures var def := Loaded(file, scope);
            var adds := def.Some? && def.value.name !in seen;
            && Holds(if adds then defs + [def.value] else defs, fs, search, files + [file], scope)
            && SeenAll(if adds then defs + [def.value] else defs, if adds then seen + {def.value.name} else seen)
  {
    hide Found, Loaded;
    var def := Loaded(file, scope);
    var adds := def.Some? && def.value.name !in seen;
    var defs' := if adds then defs + [def.value] else defs;
    forall n ensures var before := Found(fs, search, files, scope, n);
                     && Found(fs, search, files + [file], scope, n)
                        == (if before.None? && def.Some? && def.value.name == n then def else before)
                     && (before.Some? ==> n in seen)
                     && (before.None? ==> n !in seen) {
      FoundOneMore(fs, search, files, file, scope, n);
      if n in seen {
        var d :| d in defs && d.name == n;
      }
    }
    if adds {
      assert def.value in defs';
    }
  }

  method LoadDefinitionsFromDir(fs: FileSystem, dir: (string, Scope), ghost search: Search,
                                definitions: seq<Definition>, seenNames: set<string>)
    returns (definitions': seq<Definition>, seenNames': set<string>)
    requires Holds(definitions, fs, search, [], dir.1) && SeenAll(definitions, seenNames)
    ensures Holds(definitions', fs, search + [dir], [], dir.1) && SeenAll(definitions', seenNames')
  {
    hide FirstDeclaredIn, FirstDeclared;
    definitions', seenNames' := definitions, seenNames;
    var files := FilesIn(fs, dir.0);
    for i := 0 to |files|
      invariant Holds(definitions', fs, search, files[..i], dir.1) && SeenAll(definitions', seenNames')
    {
      assert files[..i + 1] == files[..i] + [files[i]];
      OneMoreFile(definitions', seenNames', fs, search, files[..i], files[i], dir.1);
      if files[i].md && files[i].parsed.Some? {
        var def := files[i].parsed.value.(scope := dir.1);
        if def.name !in seenNames' {
          seenNames' := seenNames' + {def.name};
          definitions' := definitions' + [def];
        }
      }
    }
    assert files[..|files|] == files;
    DirectoryDone(definitions', fs, search, dir);
  }

  lemma {:induction false} DirectoryDone(defs: seq<Definition>, fs: FileSystem, search: Search, dir: (string, Scope))
    requires Holds(defs, fs, search, FilesIn(fs, dir.0), dir.1)
    ensures forall scope :: Holds(defs, fs, search + [dir], [], scope)
  {
    hide FirstDeclared, FilesIn;
    forall scope: Scope, n ensures Found(fs, search + [dir], [], scope, n)
        == Found(fs, search, FilesIn(fs, dir.0), dir.1, n) {
      FirstDeclaredAppend(fs, search, dir, n);
    }
  }

  /** Where agents are looked for: the project's directories, nearest first, and the user's. */
  datatype Places = Places(fs: FileSystem, project: seq<string>, home: Option<string>, hystersisHome: Option<string>)

  function UserSearch(p: Places): Search { UserAgentDirs(p.home, p.hystersisHome) }

  function AllDirs(p: Places): Search { ProjectDirs(p.project) + UserSearch(p) }

  /** Every agent found, one per declared name, each the first in order of priority. */
  method DiscoverWithHome(p: Places) returns (definitions: seq<Definition>)
    ensures Holds(definitions, p.fs, AllDirs(p), [], BuiltIn)
  {
    hide FirstDeclaredIn, FirstDeclared, UserAgentDirs;
    definitions := [];
    var seenNames := {};
    var dirs := AllDirs(p);
    NothingFound(p.fs, dirs[..0]);
    for i := 0 to |dirs|
      invariant forall scope :: Holds(definitions, p.fs, dirs[..i], [], scope)
      invariant SeenAll(definitions, seenNames)
    {
      assert dirs[..i + 1] == dirs[..i] + [dirs[i]];
      definitions, seenNames := LoadDefinitionsFromDir(p.fs, dirs[i], dirs[..i], definitions, seenNames);
      SameBeforeAnyFile(definitions, p.fs, dirs[..i + 1], dirs[i].1);
    }
    assert dirs[..|dirs|] == dirs;
  }

  lemma {:induction false} NothingFound(fs: FileSystem, search: Search)
    requires search == []
    ensures forall scope :: Holds([], fs, search, [], scope)
  {}

  lemma {:induction false} SameBeforeAnyFile(defs: seq<Definition>, fs: FileSystem, search: Search, scope: Scope)
    requires Holds(defs, fs, search, [], scope)
    ensures forall scope' :: Holds(defs, fs, search, [], scope')
  {
    forall scope': Scope, n ensures Found(fs, search, [], scope', n) == Found(fs, search, [], scope, n) {}
  }

  // ---------------------------------------------------------------------- merging

  datatype Source = FromBuiltin(builtin: Builtin) | UserDefined(scope: Scope)

  datatype Entry = Entry(name: string, description: string, source: Source, shadowsBuiltin: Option<Builtin>)

  /** Descriptions of the built-in definitions. */
  type Describe = Builtin -> string

  function Priority(scope: Scope): nat {
    match scope
    case Project => 3
    case User => 2
    case Bundled => 1
    case BuiltIn => 0
  }

  function BuiltinEntry(describe: Describe, b: Builtin): Entry {
    Entry(NameOf(b), describe(b), FromBuiltin(b), None)
  }

  /** Whether a discovered agent may be listed: a built-in subagent yields to projects only. */
  predicate Eligible(def: Definition) {
    !def.scope.BuiltIn? && (VariantOf(def.name).Some? ==> def.scope.Project?)
  }

  /** Of the eligible agents with a name, the first of the highest scope. */
  function Best(defs: seq<Definition>, name: string): Option<Definition> {
    if defs == [] then None else BestOf(Best(defs[..|defs| - 1], name), defs[|defs| - 1], name)
  }

  function BestOf(before: Option<Definition>, def: Definition, name: string): Option<Definition> {
    if def.name == name && Eligible(def) && (before.None? || Priority(def.scope) > Priority(before.value.scope)) then
      Some(def)
    else before
  }

  /** What the list says under a name: the best agent, or the built-in subagent, or nothing. */
  function ListedAs(describe: Describe, best: Option<Definition>, name: string): Option<Entry> {
    var variant := VariantOf(name);
    if best.Some? then Some(Entry(name, best.value.description, UserDefined(best.value.scope), variant))
    else if variant.Some? then Some(BuiltinEntry(describe, variant.value))
    else None
  }

  predicate DistinctEntries(entries: seq<Entry>) {
    forall i, j :: 0 <= i < j < |entries| ==> entries[i].name != entries[j].name
  }

  /** `entries` is the list after `defs`, name by name. */
  ghost predicate Lists(describe: Describe, defs: seq<Definition>, entries: seq<Entry>) {
    && DistinctEntries(entries)
    && (forall e :: e in entries ==> ListedAs(describe, Best(defs, e.name), e.name) == Some(e))
    && (forall n :: ListedAs(describe, Best(defs, n), n).Some? ==>
        ListedAs(describe, Best(defs, n), n).value in entries)
  }

  method Position(entries: seq<Entry>, name: string) returns (pos: Option<nat>)
    ensures pos.Some? ==> pos.value < |entries| && entries[pos.value].name == name
    ensures pos.None? ==> forall e :: e in entries ==> e.name != name
  {
    for i := 0 to |entries|
      invariant forall k :: 0 <= k < i ==> entries[k].name != name
    {
      if entries[i].name == name {
        return Some(i);
      }
    }
    return None;
  }

  lemma {:induction false} BestAppend(defs: seq<Definition>, def: Definition, name: string)
    ensures Best(defs + [def], name) == BestOf(Best(defs, name), def, name)
  {
    assert (defs + [def])[..|defs|] == defs;
  }

  lemma {:induction false} BestIsEligible(defs: seq<Definition>, name: string)
    ensures var best := Best(defs, name);
            best.Some? ==> best.value in defs && best.value.name == name && Eligible(best.value)
  {
    if defs != [] {
      BestIsEligible(defs[..|defs| - 1], name);
    }
  }

  lemma {:induction false} BuiltinsListed(describe: Describe)
    ensures Lists(describe, [], seq(3, i requires 0 <= i < 3 => BuiltinEntry(describe, SubagentVariants[i])))
  {
    hide NameOf, Named;
    var entries := seq(3, i requires 0 <= i < 3 => BuiltinEntry(describe, SubagentVariants[i]));
    forall i, j | 0 <= i < j < 3 ensures entries[i].name != entries[j].name {
      if entries[i].name == entries[j].name {
        BuiltinNamesAreDistinct(SubagentVariants[i], SubagentVariants[j]);
      }
    }
    forall i | 0 <= i < 3 ensures VariantOf(entries[i].name) == Some(SubagentVariants[i]) {
      FromStrOfName(SubagentVariants[i]);
    }
    forall n | VariantOf(n).Some? ensures BuiltinEntry(describe, VariantOf(n).value) in entries {
      var k :| 0 <= k < 3 && SubagentVariants[k] == VariantOf(n).value;
      assert entries[k] == BuiltinEntry(describe, SubagentVariants[k]);
    }
  }

  /** The merged list, before toggles. */
  method MergeDiscovered(describe: Describe, discovered: seq<Definition>) returns (entries: seq<Entry>)
    ensures Lists(describe, discovered, entries)
  {
    hide NameOf, FromStr;
    entries := seq(3, i requires 0 <= i < 3 => BuiltinEntry(describe, SubagentVariants[i]));
    BuiltinsListed(describe);
    for k := 0 to |discovered|
      invariant Lists(describe, discovered[..k], entries)
    {
      var def := discovered[k];
      assert discovered[..k + 1] == discovered[..k] + [def];
      var variant := VariantOf(def.name);
      var pos := Position(entries, def.name);
      var listed := Entry(def.name, def.description, UserDefined(def.scope), variant);
      OneMoreDefinition(describe, discovered[..k], def, entries, pos);
      if def.scope.BuiltIn? {
        continue;
      }
      if variant.Some? && !def.scope.Project? {
        continue;
      }
      if pos.Some? {
        var source := entries[pos.value].source;
        if source.FromBuiltin? || Priority(def.scope) > Priority(source.scope) {
          entries := entries[pos.value := listed];
        }
      } else {
        entries := entries + [listed.(shadowsBuiltin := None)];
      }
    }
    assert discovered[..|discovered|] == discovered;
  }

  lemma {:induction false} OneMoreDefinition(describe: Describe, defs: seq<Definition>, def: Definition,
                                             entries: seq<Entry>, pos: Option<nat>)
    requires Lists(describe, defs, entries)
    requires pos.Some? ==> pos.value < |entries| && entries[pos.value].name == def.name
    requires pos.None? ==> forall e :: e in entries ==> e.name != def.name
    ensures var listed := Entry(def.name, def.description, UserDefined(def.scope), VariantOf(def.name));
            && (!Eligible(def) ==> Lists(describe, defs + [def], entries))
            && (Eligible(def) && pos.None? ==>
                listed.shadowsBuiltin == None && Lists(describe, defs + [def], entries + [listed]))
            && (Eligible(def) && pos.Some? ==>
                var source := entries[pos.value].source;
                Lists(describe, defs + [def],
                      if source.FromBuiltin? || Priority(def.scope) > Priority(source.scope)
                          then entries[pos.value := listed] else entries))
  {
    hide VariantOf, NameOf, Eligible, Lists, Best;
    var name := def.name;
    var listed := Entry(name, def.description, UserDefined(def.scope), VariantOf(name));
    BestAppend(defs, def, name);
    EntriesOf(describe, defs, entries, name);
    if pos.Some? {
      Replaced(entries, pos.value, listed);
      SameElsewhere(describe, defs, def, entries, entries[pos.value := listed]);
    } else {
      SameElsewhere(describe, defs, def, entries, entries + [listed]);
    }
    SameElsewhere(describe, defs, def, entries, entries);
  }

  lemma {:induction false} EntriesOf(describe: Describe, defs: seq<Definition>, entries: seq<Entry>, name: string)
    requires Lists(describe, defs, entries)
    ensures DistinctEntries(entries)
    ensures forall e :: e in entries && e.name == name <==> ListedAs(describe, Best(defs, name), name) == Some(e)
  {
    hide VariantOf, NameOf, Best;
    ListedName(describe, Best(defs, name), name);
  }

  /** A definition changes the list under its own name only. */
  lemma {:induction false} SameElsewhere(describe: Describe, defs: seq<Definition>, def: Definition,
                                         entries: seq<Entry>, entries': seq<Entry>)
    requires Lists(describe, defs, entries)
    ensures && DistinctEntries(entries')
            && (forall e: Entry :: e.name != def.name ==> (e in entries' <==> e in entries))
            && (forall e :: e in entries' && e.name == def.name <==>
                ListedAs(describe, Best(defs + [def], def.name), def.name) == Some(e))
            ==> Lists(describe, defs + [def], entries')
  {
    hide VariantOf, NameOf, Eligible, Best, ListedAs;
    forall n | n != def.name ensures Best(defs + [def], n) == Best(defs, n) {
      BestAppend(defs, def, n);
    }
    forall n ensures var e := ListedAs(describe, Best(defs + [def], n), n); e.Some? ==> e.value.name == n {
      ListedName(describe, Best(defs + [def], n), n);
    }
  }

  lemma {:induction false} Replaced(entries: seq<Entry>, pos: nat, e: Entry)
    requires DistinctEntries(entries) && pos < |entries| && entries[pos].name == e.name
    ensures DistinctEntries(entries[pos := e])
    ensures forall x :: x in entries[pos := e] <==> x == e || (x in entries && x.name != e.name)
  {
    var replaced := entries[pos := e];
    assert replaced[pos] == e;
    forall x | x in entries && x.name != e.name ensures x in replaced {
      var k :| 0 <= k < |entries| && entries[k] == x;
      assert replaced[k] == x;
    }
  }

  lemma {:induction false} ListedName(describe: Describe, best: Option<Definition>, name: string)
    ensures var listed := ListedAs(describe, best, name); listed.Some? ==> listed.value.name == name
  {
    hide NameOf, Named;
  }

  function Enabled(toggle: map<string, bool>, name: string): bool {
    name in toggle ==> toggle[name]
  }

  /** Every subagent on offer: the merged list without those toggled off. */
  method AllSubagents(p: Places, toggle: map<string, bool>, describe: Describe) returns (entries: seq<Entry>)
    ensures DistinctEntries(entries) && IsSubagentList(p, toggle, describe, entries)
  {
    hide Best, ListedAs, Holds, Lists, AllDirs;
    var discovered := DiscoverWithHome(p);
    var merged := MergeDiscovered(describe, discovered);
    MembersOf(describe, discovered, merged);
    entries := [];
    for i := 0 to |merged|
      invariant forall e :: e in entries <==> e in merged[..i] && Enabled(toggle, e.name)
      invariant DistinctEntries(entries)
    {
      assert merged[..i + 1] == merged[..i] + [merged[i]];
      assert forall e :: e in merged[..i] ==> e.name != merged[i].name;
      if Enabled(toggle, merged[i].name) {
        entries := entries + [merged[i]];
      }
    }
    assert merged[..|merged|] == merged;
    assert IsList(describe, discovered, toggle, entries);
  }

  lemma {:induction false} MembersOf(describe: Describe, defs: seq<Definition>, entries: seq<Entry>)
    requires Lists(describe, defs, entries)
    ensures DistinctEntries(entries)
    ensures forall e :: e in entries <==> ListedAs(describe, Best(defs, e.name), e.name) == Some(e)
  {
    hide Best, ListedAs;
  }

  /** Membership in the final list, name by name. */
  ghost predicate IsList(describe: Describe, defs: seq<Definition>, toggle: map<string, bool>, entries: seq<Entry>) {
    forall e :: e in entries <==> Enabled(toggle, e.name) && ListedAs(describe, Best(defs, e.name), e.name) == Some(e)
  }

  /** `entries` lists what was discovered, merged and not toggled off. */
  ghost predicate IsSubagentList(p: Places, toggle: map<string, bool>, describe: Describe, entries: seq<Entry>) {
    exists defs :: Holds(defs, p.fs, AllDirs(p), [], BuiltIn) && IsList(describe, defs, toggle, entries)
  }

  // --------------------------------------------------------------------- look-up

  /** The file `name.md` of a directory, when it parses. */
  function LoadDefinitionByName(files: seq<AgentFile>, name: string, scope: Scope): Option<Definition> {
    if files == [] then None
    else if files[0].md && files[0].stem == name then Loaded(files[0], scope)
    else LoadDefinitionByName(files[1..], name, scope)
  }

  function FirstByName(fs: FileSystem, search: Search, name: string): Option<Definition> {
    if search == [] then None
    else OrElse(LoadDefinitionByName(FilesIn(fs, search[0].0), name, search[0].1), FirstByName(fs, search[1..], name))
  }

  function ByNameWithHome(p: Places, describe: Describe, name: string): Option<Definition> {
    var builtin := FromStr(name);
    if builtin.Some? then Some(Definition(NameOf(builtin.value), describe(builtin.value), BuiltIn))
    else FirstByName(p.fs, UserSearch(p), name)
  }

  function ByNameInCwd(p: Places, describe: Describe, name: string): Option<Definition> {
    OrElse(FirstByName(p.fs, ProjectDirs(p.project), name), ByNameWithHome(p, describe, name))
  }

  // ---------------------------------------------------------- the two must agree

  /**
   Where the files that bear on a name are named after their agents, the first file by stem is the
   first by declared name.
   */
  lemma {:induction false} ByNameIsFirstDeclaredIn(files: seq<AgentFile>, scope: Scope, name: string)
    requires UniqueStems(files) && NamedAlike(files, name)
    ensures LoadDefinitionByName(files, name, scope) == FirstDeclaredIn(files, scope, name)
  {
    if files != [] {
      var rest := files[1..];
      assert UniqueStems(rest) && NamedAlike(rest, name);
      ByNameIsFirstDeclaredIn(rest, scope, name);
      if files[0].md && files[0].stem == name {
        NotDeclaredTwice(rest, scope, name);
      }
    }
  }

  lemma {:induction false} NotDeclaredTwice(files: seq<AgentFile>, scope: Scope, name: string)
    requires NamedAlike(files, name) && forall k :: 0 <= k < |files| && files[k].md ==> files[k].stem != name
    ensures FirstDeclaredIn(files, scope, name) == None
  {
    if files != [] {
      NotDeclaredTwice(files[1..], scope, name);
    }
  }

  lemma {:induction false} ByNameIsFirstDeclared(fs: FileSystem, search: Search, name: string)
    requires WellNamed(fs, name)
    ensures FirstByName(fs, search, name) == FirstDeclared(fs, search, name)
  {
    if search != [] {
      ByNameIsFirstDeclaredIn(FilesIn(fs, search[0].0), search[0].1, name);
      ByNameIsFirstDeclared(fs, search[1..], name);
    }
  }

  lemma {:induction false} FirstDeclaredConcat(fs: FileSystem, a: Search, b: Search, name: string)
    ensures FirstDeclared(fs, a + b, name) == OrElse(FirstDeclared(fs, a, name), FirstDeclared(fs, b, name))
  {
    if a == [] {
      assert a + b == b;
    } else {
      assert (a + b)[1..] == a[1..] + b;
      FirstDeclaredConcat(fs, a[1..], b, name);
    }
  }

  lemma {:induction false} FirstDeclaredScope(fs: FileSystem, search: Search, name: string)
    ensures var d := FirstDeclared(fs, search, name);
            d.Some? ==> d.value.name == name && exists k :: 0 <= k < |search| && search[k].1 == d.value.scope
  {
    if search != [] {
      FirstDeclaredInName(FilesIn(fs, search[0].0), search[0].1, name);
      FirstDeclaredScope(fs, search[1..], name);
      assert forall k :: 0 <= k < |search| - 1 ==> search[1..][k] == search[k + 1];
    }
  }

  /** Of distinct names, the best is the only one, if it is eligible. */
  lemma {:induction false} BestOfDistinct(defs: seq<Definition>, name: string)
    requires DistinctNames(defs)
    ensures forall d :: d in defs && d.name == name ==> Best(defs, name) == if Eligible(d) then Some(d) else None
    ensures (forall d :: d in defs ==> d.name != name) ==> Best(defs, name) == None
  {
    hide Eligible;
    if defs != [] {
      var before := defs[..|defs| - 1];
      BestOfDistinct(before, name);
      assert defs == before + [defs[|defs| - 1]];
    }
  }

  /** What the list shows under a name, from the files alone. */
  lemma {:induction false} BestIsFirst(p: Places, defs: seq<Definition>, name: string)
    requires Holds(defs, p.fs, AllDirs(p), [], BuiltIn)
    ensures var first := FirstDeclared(p.fs, AllDirs(p), name);
            Best(defs, name) == if first.Some? && Eligible(first.value) then first else None
  {
    hide Eligible, FirstDeclared, Best, AllDirs;
    var first := FirstDeclared(p.fs, AllDirs(p), name);
    assert Found(p.fs, AllDirs(p), [], BuiltIn, name) == first;
    FirstDeclaredName(p.fs, AllDirs(p), name);
    BestOfDistinct(defs, name);
  }

  /** What the look-up finds is what was listed: same scope, same description. */
  predicate Agrees(e: Entry, found: Option<Definition>) {
    found.Some? && found.value.description == e.description
    && found.value.scope == if e.source.FromBuiltin? then BuiltIn else e.source.scope
  }

  /**
   Visible is callable. When the files that bear on its name are named after their agents, a listed entry is found
   by its name, in the scope and with the description it is listed under, exactly when it
   is not a user-level or bundled agent carrying the name of a built-in that is not offered
   as a subagent: those the look-up answers with the built-in.
   */
  lemma {:induction false} VisibleIsCallableIff(p: Places, toggle: map<string, bool>, describe: Describe,
                                                entries: seq<Entry>, e: Entry)
    requires WellNamed(p.fs, e.name) && IsSubagentList(p, toggle, describe, entries) && e in entries
    ensures Agrees(e, ByNameInCwd(p, describe, e.name))
            <==> !(e.source.UserDefined? && e.source.scope != Project && FromStr(e.name).Some?)
  {
    hide FromStr, NameOf, Best, FirstDeclared, FirstByName, UserAgentDirs;
    var defs :| Holds(defs, p.fs, AllDirs(p), [], BuiltIn) && IsList(describe, defs, toggle, entries);
    PlacesOfName(p, defs, e.name);
  }

  /** One file below the user's home, `stem`.md, declaring the agent `name`. */
  function OneUserFile(stem: string, name: string, text: string): Places {
    Places(map["/home/agents" := [AgentFile(stem, true, Some(Definition(name, text, User)))]], [], None, Some("/home"))
  }

  lemma {:induction false} OneUserFileFound(stem: string, name: string, text: string)
    ensures var p, def := OneUserFile(stem, name, text), Some(Definition(name, text, User));
            && FirstDeclared(p.fs, AllDirs(p), name) == def
            && (stem != name ==> FirstDeclared(p.fs, AllDirs(p), stem) == None)
            && FirstByName(p.fs, UserSearch(p), stem) == def
            && (stem != name ==> FirstByName(p.fs, UserSearch(p), name) == None)
  {
    var p := OneUserFile(stem, name, text);
    assert p.fs.Keys == {"/home/agents"};
    assert "/home" + "/agents" == "/home/agents";
    var bundled := "/home" + "/bundled/agents";
    assert |bundled| != |"/home/agents"|;
    assert ProjectDirs(p.project) == [];
    assert UserSearch(p) == [("/home/agents", User), (bundled, Bundled)];
    assert AllDirs(p) == UserSearch(p);
    hide UserAgentDirs, AllDirs, UserSearch;
    assert FilesIn(p.fs, bundled) == [];
    OneFileOnly(p.fs, ("/home/agents", User), (bundled, Bundled), stem, name, text);
  }

  lemma {:induction false} OneFileOnly(fs: FileSystem, first: (string, Scope), second: (string, Scope),
                                       stem: string, name: string, text: string)
    requires FilesIn(fs, first.0) == [AgentFile(stem, true, Some(Definition(name, text, User)))]
             && FilesIn(fs, second.0) == []
    ensures forall n ::
            FirstDeclared(fs, [first, second], n) == if n == name then Some(Definition(name, text, first.1)) else None
    ensures forall n ::
            FirstByName(fs, [first, second], n) == if n == stem then Some(Definition(name, text, first.1)) else None
  {
    var search, files := [first, second], FilesIn(fs, first.0);
    assert search[1..] == [second] && [second][1..] == [] && files[1..] == [];
    forall n
      ensures FirstDeclaredIn(files, first.1, n) == if n == name then Some(Definition(name, text, first.1)) else None
      ensures LoadDefinitionByName(files, n, first.1)
           == if n == stem then Some(Definition(name, text, first.1)) else None
      ensures FirstDeclared(fs, [second], n) == None && FirstByName(fs, [second], n) == None
    {
      assert FirstDeclaredIn(files[1..], first.1, n) == None && LoadDefinitionByName(files[1..], n, first.1) == None;
      assert FirstDeclared(fs, [second][1..], n) == None && FirstByName(fs, [second][1..], n) == None;
    }
  }

  /**
   A user file named after any built-in that is not offered as a subagent is listed, and the look-up
   answers with the built-in.
   */
  lemma {:induction false} ListedButNotCallable(b: Builtin, text: string, describe: Describe, entries: seq<Entry>)
    requires b !in SubagentVariants
    requires IsSubagentList(OneUserFile(NameOf(b), NameOf(b), text), map[], describe, entries)
    ensures Entry(NameOf(b), text, UserDefined(User), None) in entries
    ensures ByNameInCwd(OneUserFile(NameOf(b), NameOf(b), text), describe, NameOf(b))
            == Some(Definition(NameOf(b), describe(b), BuiltIn))
  {
    hide NameOf, Named, Best, FirstDeclared, FirstByName, AllDirs, UserSearch;
    var name := NameOf(b);
    var p := OneUserFile(name, name, text);
    FromStrOfName(b);
    OneUserFileFound(name, name, text);
    NoProjectFile(p, name);
    var defs :| Holds(defs, p.fs, AllDirs(p), [], BuiltIn) && IsList(describe, defs, map[], entries);
    BestIsFirst(p, defs, name);
    assert ListedAs(describe, Best(defs, name), name) == Some(Entry(name, text, UserDefined(User), None));
  }

  lemma {:induction false} NoProjectFile(p: Places, name: string)
    requires p.project == []
    ensures FirstByName(p.fs, ProjectDirs(p.project), name) == None
  {}

  /**
   A file whose stem is not the name it declares is listed under the declared name, by which
   the look-up finds nothing, and is found by its stem, under which nothing is listed.
   */
  lemma {:induction false} MisnamedFileIsNotCallable(stem: string, name: string, text: string, describe: Describe,
                                                     entries: seq<Entry>)
    requires stem != name && FromStr(name).None? && FromStr(stem).None?
    requires IsSubagentList(OneUserFile(stem, name, text), map[], describe, entries)
    ensures var p := OneUserFile(stem, name, text);
            && Entry(name, text, UserDefined(User), None) in entries && ByNameInCwd(p, describe, name) == None
            && ByNameInCwd(p, describe, stem) == Some(Definition(name, text, User))
            && forall e :: e in entries ==> e.name != stem
  {
    hide NameOf, FromStr, Best, FirstDeclared, FirstByName, AllDirs, UserSearch;
    var p := OneUserFile(stem, name, text);
    OneUserFileFound(stem, name, text);
    NoProjectFile(p, name);
    NoProjectFile(p, stem);
    var defs :| Holds(defs, p.fs, AllDirs(p), [], BuiltIn) && IsList(describe, defs, map[], entries);
    BestIsFirst(p, defs, name);
    BestIsFirst(p, defs, stem);
    assert ListedAs(describe, Best(defs, name), name) == Some(Entry(name, text, UserDefined(User), None));
    assert ListedAs(describe, Best(defs, stem), stem) == None;
  }

  /**
   Callable is visible. A look-up that answers with a file, or with a built-in offered as a
   subagent, has an entry that agrees with it, unless that name is toggled off.
   */
  lemma {:induction false} CallableIsVisibleIff(p: Places, toggle: map<string, bool>, describe: Describe,
                                                entries: seq<Entry>, name: string)
    requires WellNamed(p.fs, name) && IsSubagentList(p, toggle, describe, entries)
    ensures var found := ByNameInCwd(p, describe, name);
            (exists e :: e in entries && e.name == name && Agrees(e, found))
            <==> Enabled(toggle, name) && found.Some? && (found.value.scope != BuiltIn || VariantOf(name).Some?)
  {
    hide FromStr, NameOf, Best, FirstDeclared, FirstByName, UserAgentDirs;
    var defs :| Holds(defs, p.fs, AllDirs(p), [], BuiltIn) && IsList(describe, defs, toggle, entries);
    PlacesOfName(p, defs, name);
    var listed := ListedAs(describe, Best(defs, name), name);
    ListedName(describe, Best(defs, name), name);
    assert listed.Some? && Enabled(toggle, name) ==> listed.value in entries;
  }

  /** Where a name is found, project first, and what that makes of the list. */
  lemma {:induction false} PlacesOfName(p: Places, defs: seq<Definition>, name: string)
    requires WellNamed(p.fs, name) && Holds(defs, p.fs, AllDirs(p), [], BuiltIn)
    ensures var project := FirstByName(p.fs, ProjectDirs(p.project), name);
            var user := FirstByName(p.fs, UserSearch(p), name);
            && (project.Some? ==> project.value.scope == Project && Best(defs, name) == project)
            && (user.Some? ==> user.value.scope in {User, Bundled})
            && (project.None? ==> Best(defs, name) == if VariantOf(name).Some? then None else user)
  {
    hide FromStr, Best, FirstDeclared, FirstByName;
    var fs := p.fs;
    ByNameIsFirstDeclared(fs, ProjectDirs(p.project), name);
    ByNameIsFirstDeclared(fs, UserSearch(p), name);
    FirstDeclaredConcat(fs, ProjectDirs(p.project), UserSearch(p), name);
    FirstDeclaredScope(fs, ProjectDirs(p.project), name);
    FirstDeclaredScope(fs, UserSearch(p), name);
    UserScopes(p.home, p.hystersisHome);
    BestIsFirst(p, defs, name);
  }

  lemma {:induction false} UserScopes(home: Option<string>, hystersisHome: Option<string>)
    ensures forall k :: 0 <= k < |UserAgentDirs(home, hystersisHome)| ==>
            UserAgentDirs(home, hystersisHome)[k].1 in {User, Bundled}
  {}
}
