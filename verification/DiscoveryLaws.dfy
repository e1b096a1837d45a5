/**
 What is listed and what a look-up answers, said of the files by directory and position
 and without the functions that search them.
 */
module DiscoveryLaws {
  import opened Common
  import opened AgentDiscovery

  // ------------------------------------------------------------------ directories

  /** The homes that bundles and agents may lie under. */
  ghost predicate IsBase(base: string, home: Option<string>, hystersisHome: Option<string>) {
    hystersisHome == Some(base) || (home.Some? && base == home.value + "/.hystersis")
  }

  /** The user's own directories, then the bundled ones; the current home before the legacy one. */
  lemma {:induction false} UserBeforeBundled(home: Option<string>, hystersisHome: Option<string>)
    ensures var dirs := UserAgentDirs(home, hystersisHome);
            && (forall k :: 0 <= k < |dirs| ==> dirs[k].1 in {User, Bundled})
            && (forall i, j :: 0 <= i < j < |dirs| && dirs[i].1.Bundled? ==> dirs[j].1.Bundled?)
            && (hystersisHome.Some? ==> dirs != [] && dirs[0] == (hystersisHome.value + "/agents", User))
  {}

  lemma {:induction false} BundledDirsAre(home: Option<string>, hystersisHome: Option<string>, dir: string)
    ensures (dir, Bundled) in UserAgentDirs(home, hystersisHome) <==>
            exists base :: IsBase(base, home, hystersisHome) && dir == base + "/bundled/agents"
  {
    forall base | IsBase(base, home, hystersisHome)
      ensures (base + "/bundled/agents", Bundled) in UserAgentDirs(home, hystersisHome)
    {}
  }

  lemma {:induction false} UserDirsAre(home: Option<string>, hystersisHome: Option<string>, dir: string)
    ensures (dir, User) in UserAgentDirs(home, hystersisHome) <==>
            || (exists base :: IsBase(base, home, hystersisHome) && dir == base + "/agents")
            || (home.Some? && dir == home.value + "/.claude/agents")
  {
    forall base | IsBase(base, home, hystersisHome)
      ensures (base + "/agents", User) in UserAgentDirs(home, hystersisHome)
    {}
  }

  /** The project's directories come first, in their order. */
  lemma {:induction false} ProjectDirsFirst(p: Places)
    ensures |AllDirs(p)| == |p.project| + |UserAgentDirs(p.home, p.hystersisHome)|
    ensures forall i :: 0 <= i < |p.project| ==> AllDirs(p)[i] == (p.project[i], Project)
    ensures AllDirs(p)[|p.project|..] == UserAgentDirs(p.home, p.hystersisHome)
  {
    hide UserAgentDirs;
  }

  // ------------------------------------------------------------------ first match

  predicate Declares(file: AgentFile, name: string) {
    file.md && file.parsed.Some? && file.parsed.value.name == name
  }

  /** Entry `k` of `dir` is the first to declare `name` there. */
  ghost predicate FirstIn(fs: FileSystem, dir: string, k: nat, name: string) {
    && dir in fs && k < |fs[dir]| && Declares(fs[dir][k], name)
    && forall j :: 0 <= j < k ==> !Declares(fs[dir][j], name)
  }

  ghost predicate NoneIn(fs: FileSystem, dir: string, name: string) {
    dir in fs ==> forall k :: 0 <= k < |fs[dir]| ==> !Declares(fs[dir][k], name)
  }

  /** Entry `k` of the `i`-th directory is the first anywhere to declare `name`. */
  ghost predicate FirstPlace(fs: FileSystem, search: Search, i: nat, k: nat, name: string) {
    && i < |search| && FirstIn(fs, search[i].0, k, name)
    && forall j :: 0 <= j < i ==> NoneIn(fs, search[j].0, name)
  }

  ghost predicate Undeclared(fs: FileSystem, search: Search, name: string) {
    forall j :: 0 <= j < |search| ==> NoneIn(fs, search[j].0, name)
  }

  lemma {:induction false} FirstInFiles(files: seq<AgentFile>, scope: Scope, name: string, k: nat)
    requires k < |files| && Declares(files[k], name) && forall j :: 0 <= j < k ==> !Declares(files[j], name)
    ensures FirstDeclaredIn(files, scope, name) == Some(files[k].parsed.value.(scope := scope))
  {
    if k > 0 {
      FirstInFiles(files[1..], scope, name, k - 1);
    }
  }

  lemma {:induction false} NoneInFiles(files: seq<AgentFile>, scope: Scope, name: string)
    requires forall j :: 0 <= j < |files| ==> !Declares(files[j], name)
    ensures FirstDeclaredIn(files, scope, name) == None
  {
    if files != [] {
      NoneInFiles(files[1..], scope, name);
    }
  }

  lemma {:induction false} FirstPlaceIsFound(fs: FileSystem, search: Search, i: nat, k: nat, name: string)
    requires FirstPlace(fs, search, i, k, name)
    ensures FirstDeclared(fs, search, name) == Some(fs[search[i].0][k].parsed.value.(scope := search[i].1))
  {
    hide FirstDeclaredIn;
    var dir := search[0];
    if i == 0 {
      FirstInFiles(fs[dir.0], dir.1, name, k);
    } else {
      assert NoneIn(fs, dir.0, name);
      NoneInFiles(FilesIn(fs, dir.0), dir.1, name);
      FirstPlaceIsFound(fs, search[1..], i - 1, k, name);
    }
  }

  lemma {:induction false} UndeclaredIsNotFound(fs: FileSystem, search: Search, name: string)
    requires Undeclared(fs, search, name)
    ensures FirstDeclared(fs, search, name) == None
  {
    hide FirstDeclaredIn;
    if search != [] {
      assert NoneIn(fs, search[0].0, name);
      NoneInFiles(FilesIn(fs, search[0].0), search[0].1, name);
      forall j | 0 <= j < |search| - 1 ensures NoneIn(fs, search[1..][j].0, name) {
        assert search[1..][j] == search[j + 1];
      }
      UndeclaredIsNotFound(fs, search[1..], name);
    }
  }

  // ---------------------------------------------------------------------- listing

  ghost predicate ToggledOff(toggle: map<string, bool>, name: string) {
    name in toggle && !toggle[name]
  }

  /** The three built-ins that are offered as subagents. */
  ghost function Offered(name: string): Option<Builtin> {
    if name == "general-purpose" then Some(GeneralPurpose)
    else if name == "explore" then Some(Explore)
    else if name == "plan" then Some(Plan)
    else None
  }

  lemma {:induction false} OfferedIs(name: string)
    ensures VariantOf(name) == Offered(name)
  {
    hide FromStr;
    FromStrOfName(GeneralPurpose);
    FromStrOfName(Explore);
    FromStrOfName(Plan);
    FromStrHasName(name);
  }

  lemma {:induction false} FromStrHasName(name: string)
    ensures FromStr(name).Some? ==> NameOf(FromStr(name).value) == name
  {}

  /** Nothing toggled off is listed, and a toggle takes away nothing else. */
  lemma {:induction false} TogglesOnlyTakeAway(p: Places, toggle: map<string, bool>, describe: Describe,
                                               entries: seq<Entry>, all: seq<Entry>)
    requires IsSubagentList(p, toggle, describe, entries) && IsSubagentList(p, map[], describe, all)
    ensures forall e :: e in entries <==> e in all && !ToggledOff(toggle, e.name)
  {
    hide Holds, Best, ListedAs, AllDirs;
    var defs :| Holds(defs, p.fs, AllDirs(p), [], BuiltIn) && IsList(describe, defs, toggle, entries);
    var defs' :| Holds(defs', p.fs, AllDirs(p), [], BuiltIn) && IsList(describe, defs', map[], all);
    forall name ensures Best(defs, name) == Best(defs', name) {
      BestIsFirst(p, defs, name);
      BestIsFirst(p, defs', name);
    }
  }

  /** What is listed for a definition from the `i`-th directory. */
  ghost function ListedFor(p: Places, describe: Describe, i: nat, def: Definition, scope: Scope): Entry {
    if Offered(def.name).Some? && i >= |p.project|
    then Entry(def.name, describe(Offered(def.name).value), FromBuiltin(Offered(def.name).value), None)
    else Entry(def.name, def.description, UserDefined(scope), Offered(def.name))
  }

  /**
   Under each name that is not toggled off there is the first file to declare it: a project's
   before a user's, the nearer project directory's before the farther's, a user's before a
   bundled one. Only a project's file takes the name of a built-in subagent, which otherwise
   stands there itself, as it does when no file declares its name.
   */
  lemma {:induction false} ListedIsTheFirst(p: Places, toggle: map<string, bool>, describe: Describe,
                                            entries: seq<Entry>, name: string)
    requires IsSubagentList(p, toggle, describe, entries)
    ensures ToggledOff(toggle, name) ==> forall e :: e in entries ==> e.name != name
    ensures !ToggledOff(toggle, name) ==>
              forall i: nat, k: nat :: FirstPlace(p.fs, AllDirs(p), i, k, name) ==>
                var dir := AllDirs(p)[i];
                var def := p.fs[dir.0][k].parsed.value;
                forall e :: e in entries && e.name == name <==> e == ListedFor(p, describe, i, def, dir.1)
    ensures !ToggledOff(toggle, name) && Undeclared(p.fs, AllDirs(p), name) ==>
              forall e :: e in entries && e.name == name <==>
                Offered(name).Some?
                && e == Entry(name, describe(Offered(name).value), FromBuiltin(Offered(name).value), None)
  {
    hide Holds, Best, AllDirs, FirstDeclared, VariantOf, Offered, ListedAs, ListedFor, Undeclared, BuiltinEntry;
    var defs :| Holds(defs, p.fs, AllDirs(p), [], BuiltIn) && IsList(describe, defs, toggle, entries);
    var listed := ListedAs(describe, Best(defs, name), name);
    BestIsFirst(p, defs, name);
    ListedName(describe, Best(defs, name), name);
    assert ToggledOff(toggle, name) <==> !Enabled(toggle, name);
    assert Enabled(toggle, name) ==> forall e :: e in entries && e.name == name <==> listed == Some(e);
    forall i: nat, k: nat | FirstPlace(p.fs, AllDirs(p), i, k, name)
      ensures var dir := AllDirs(p)[i]; listed == Some(ListedFor(p, describe, i, p.fs[dir.0][k].parsed.value, dir.1))
    {
      FromTheFirst(p, describe, i, k, name);
    }
    if Undeclared(p.fs, AllDirs(p), name) {
      UndeclaredIsNotFound(p.fs, AllDirs(p), name);
      NothingBetter(describe, name);
    }
  }

  lemma {:induction false} NothingBetter(describe: Describe, name: string)
    ensures ListedAs(describe, None, name)
            == match Offered(name)
               case None => None
               case Some(b) => Some(Entry(name, describe(b), FromBuiltin(b), None))
  {
    OfferedIs(name);
    FromStrHasName(name);
    hide FromStr;
  }

  lemma {:induction false} FromTheFirst(p: Places, describe: Describe, i: nat, k: nat, name: string)
    requires FirstPlace(p.fs, AllDirs(p), i, k, name)
    ensures var first, dir := FirstDeclared(p.fs, AllDirs(p), name), AllDirs(p)[i];
            ListedAs(describe, if first.Some? && Eligible(first.value) then first else None, name)
            == Some(ListedFor(p, describe, i, p.fs[dir.0][k].parsed.value, dir.1))
  {
    var dirs, dir := AllDirs(p), AllDirs(p)[i];
    ProjectDirsFirst(p);
    UserBeforeBundled(p.home, p.hystersisHome);
    FirstPlaceIsFound(p.fs, dirs, i, k, name);
    OfferedIs(name);
    NothingBetter(describe, name);
    hide AllDirs, FirstDeclared, VariantOf, UserAgentDirs, Offered, BuiltinEntry;
    assert i >= |p.project| ==> dir == dirs[|p.project|..][i - |p.project|];
    assert p.fs[dir.0][k].parsed.value.name == name;
  }

  // --------------------------------------------------------------------- look-up

  predicate IsCalled(file: AgentFile, name: string) { file.md && file.stem == name }

  ghost predicate FirstCalled(files: seq<AgentFile>, k: nat, name: string) {
    k < |files| && IsCalled(files[k], name) && forall j :: 0 <= j < k ==> !IsCalled(files[j], name)
  }

  /** In `dir` entry `k` is the first file called `name`.md, and it parses. */
  ghost predicate FileNamed(fs: FileSystem, dir: string, k: nat, name: string) {
    dir in fs && FirstCalled(fs[dir], k, name) && fs[dir][k].parsed.Some?
  }

  /** The first file called `name`.md, if any, does not parse. */
  ghost predicate NoFileNamed(fs: FileSystem, dir: string, name: string) {
    forall k: nat :: !FileNamed(fs, dir, k, name)
  }

  ghost predicate FirstNamed(fs: FileSystem, search: Search, i: nat, k: nat, name: string) {
    && i < |search| && FileNamed(fs, search[i].0, k, name)
    && forall j :: 0 <= j < i ==> NoFileNamed(fs, search[j].0, name)
  }

  ghost predicate NowhereNamed(fs: FileSystem, search: Search, name: string) {
    forall j :: 0 <= j < |search| ==> NoFileNamed(fs, search[j].0, name)
  }

  lemma {:induction false} LoadsTheFile(files: seq<AgentFile>, name: string, scope: Scope, k: nat)
    requires FirstCalled(files, k, name)
    ensures LoadDefinitionByName(files, name, scope) == Loaded(files[k], scope)
  {
    if k > 0 {
      assert !IsCalled(files[0], name);
      assert FirstCalled(files[1..], k - 1, name);
      LoadsTheFile(files[1..], name, scope, k - 1);
    }
  }

  lemma {:induction false} LoadsNothing(files: seq<AgentFile>, name: string, scope: Scope)
    requires forall j :: 0 <= j < |files| ==> !IsCalled(files[j], name)
    ensures LoadDefinitionByName(files, name, scope) == None
  {
    if files != [] {
      assert !IsCalled(files[0], name);
      LoadsNothing(files[1..], name, scope);
    }
  }

  lemma {:induction false} FirstNamedIsLoaded(fs: FileSystem, search: Search, i: nat, k: nat, name: string)
    requires FirstNamed(fs, search, i, k, name)
    ensures FirstByName(fs, search, name) == Some(fs[search[i].0][k].parsed.value.(scope := search[i].1))
  {
    hide LoadDefinitionByName;
    var dir := search[0];
    if i == 0 {
      LoadsTheFile(fs[dir.0], name, dir.1, k);
    } else {
      NotLoaded(fs, dir, name);
      FirstNamedIsLoaded(fs, search[1..], i - 1, k, name);
    }
  }

  lemma {:induction false} NotLoaded(fs: FileSystem, dir: (string, Scope), name: string)
    requires NoFileNamed(fs, dir.0, name)
    ensures LoadDefinitionByName(FilesIn(fs, dir.0), name, dir.1) == None
  {
    hide LoadDefinitionByName, FirstCalled, IsCalled;
    var files := FilesIn(fs, dir.0);
    if k: nat :| FirstCalled(files, k, name) {
      InRange(files, k, name);
      LoadsTheFile(files, name, dir.1, k);
      assert !FileNamed(fs, dir.0, k, name);
    } else {
      NoFirst(files, name, |files|);
      LoadsNothing(files, name, dir.1);
    }
  }

  lemma {:induction false} InRange(files: seq<AgentFile>, k: nat, name: string)
    requires FirstCalled(files, k, name)
    ensures k < |files|
  {}

  lemma {:induction false} NoFirst(files: seq<AgentFile>, name: string, n: nat)
    requires n <= |files| && forall k: nat :: !FirstCalled(files, k, name)
    ensures forall j :: 0 <= j < n ==> !IsCalled(files[j], name)
  {
    hide IsCalled;
    if n > 0 {
      NoFirst(files, name, n - 1);
      assert !FirstCalled(files, n - 1, name);
    }
  }

  lemma {:induction false} NowhereNamedIsNotLoaded(fs: FileSystem, search: Search, name: string)
    requires NowhereNamed(fs, search, name)
    ensures FirstByName(fs, search, name) == None
  {
    hide LoadDefinitionByName, NoFileNamed;
    if search != [] {
      NotLoaded(fs, search[0], name);
      forall j | 0 <= j < |search| - 1 ensures NoFileNamed(fs, search[1..][j].0, name) {
        assert search[1..][j] == search[j + 1];
      }
      NowhereNamedIsNotLoaded(fs, search[1..], name);
    }
  }

  /**
   A look-up answers with the first project file of that name, else with the built-in of
   that name, else with the first user or bundled file, else with nothing.
   */
  lemma {:induction false} LookUpOrder(p: Places, describe: Describe, name: string)
    ensures var answer := ByNameInCwd(p, describe, name);
            var project, user := ProjectDirs(p.project), UserAgentDirs(p.home, p.hystersisHome);
            && (forall i: nat, k: nat :: FirstNamed(p.fs, project, i, k, name) ==>
                  answer == Some(p.fs[p.project[i]][k].parsed.value.(scope := Project)))
            && (NowhereNamed(p.fs, project, name) ==>
                  && (forall b: Builtin :: NameOf(b) == name ==> answer == Some(Definition(name, describe(b), BuiltIn)))
                  && ((forall b: Builtin :: NameOf(b) != name) ==>
                        && (forall i: nat, k: nat :: FirstNamed(p.fs, user, i, k, name) ==>
                              answer == Some(p.fs[user[i].0][k].parsed.value.(scope := user[i].1)))
                        && (NowhereNamed(p.fs, user, name) ==> answer == None)))
  {
    var project, user := ProjectDirs(p.project), UserAgentDirs(p.home, p.hystersisHome);
    BuiltinOf(name);
    hide FirstByName, UserAgentDirs, FromStr, NameOf, NoFileNamed;
    forall search: Search, i: nat, k: nat | FirstNamed(p.fs, search, i, k, name)
      ensures FileNamed(p.fs, search[i].0, k, name) && k < |FilesIn(p.fs, search[i].0)|
      ensures FilesIn(p.fs, search[i].0)[k].parsed.Some?
      ensures FirstByName(p.fs, search, name)
              == Some(FilesIn(p.fs, search[i].0)[k].parsed.value.(scope := search[i].1))
    {
      FirstNamedIsLoaded(p.fs, search, i, k, name);
    }
    forall search | NowhereNamed(p.fs, search, name) ensures FirstByName(p.fs, search, name) == None {
      NowhereNamedIsNotLoaded(p.fs, search, name);
    }
  }

  lemma {:induction false} BuiltinOf(name: string)
    ensures forall b: Builtin :: NameOf(b) == name ==> FromStr(name) == Some(b)
    ensures FromStr(name).Some? ==> NameOf(FromStr(name).value) == name
  {
    hide NameOf, FromStr;
    forall b: Builtin | NameOf(b) == name ensures FromStr(name) == Some(b) {
      FromStrOfName(b);
    }
    FromStrHasName(name);
  }
}
