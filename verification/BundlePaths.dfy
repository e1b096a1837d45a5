/**
 The paths a bundle may write: how a cache-relative path is validated, how one is
 built from a kind and a name, and how an archive path maps into the cache.
 */
module BundlePaths {
  import opened Common

  datatype Kind = Persona | Role | Agent | Skill | Workflow

  function DirName(kind: Kind): string {
    match kind
    case Persona => "personas"
    case Role => "roles"
    case Agent => "agents"
    case Skill => "skills"
    case Workflow => "workflows"
  }

  function Extension(kind: Kind): string {
    match kind
    case Agent | Skill => "md"
    case Persona | Role => "toml"
    case Workflow => "rhai"
  }

  function FromDirName(dir: string): Option<Kind> {
    if dir == "personas" then Some(Persona)
    else if dir == "roles" then Some(Role)
    else if dir == "agents" then Some(Agent)
    else if dir == "skills" then Some(Skill)
    else if dir == "workflows" then Some(Workflow)
    else None
  }

  // ------------------------------------------------------------------ components

  /** The text split at each slash; never empty. */
  function Split(s: string): (parts: seq<string>)
    ensures |parts| > 0
  {
    if s == "" then [""]
    else
      var rest := Split(s[1..]);
      if s[0] == '/' then [""] + rest else [[s[0]] + rest[0]] + rest[1..]
  }

  function Join(parts: seq<string>): string
    requires |parts| > 0
  {
    if |parts| == 1 then parts[0] else parts[0] + "/" + Join(parts[1..])
  }

  lemma {:induction false} JoinOfSplit(s: string)
    ensures Join(Split(s)) == s
    ensures forall k :: 0 <= k < |Split(s)| ==> '/' !in Split(s)[k]
  {
    if s != "" {
      JoinOfSplit(s[1..]);
      var rest := Split(s[1..]);
      if s[0] == '/' {
        assert ([""] + rest)[1..] == rest;
        assert s == "/" + s[1..];
      } else {
        var first := [[s[0]] + rest[0]];
        assert (first + rest[1..])[1..] == rest[1..];
        assert s == [s[0]] + s[1..];
      }
    }
  }

  lemma {:induction false} SplitOne(s: string)
    requires '/' !in s
    ensures Split(s) == [s]
  {
    if s != "" {
      SplitOne(s[1..]);
      assert [s[0]] + s[1..] == s;
    }
  }

  lemma {:induction false} SplitAfter(head: string, tail: string)
    requires '/' !in head
    ensures Split(head + "/" + tail) == [head] + Split(tail)
  {
    var s := head + "/" + tail;
    if head == "" {
      assert s[1..] == tail;
    } else {
      assert s[1..] == head[1..] + "/" + tail;
      SplitAfter(head[1..], tail);
      assert [s[0]] + head[1..] == head;
    }
  }

  // ------------------------------------------------------------------ validation

  predicate IsControl(c: char) {
    c <= '\U{1F}' || '\U{7F}' <= c <= '\U{9F}'
  }

  predicate ValidName(name: string) {
    && name != "" && name != "." && name != ".."
    && '/' !in name && '\\' !in name
    && forall k :: 0 <= k < |name| ==> !IsControl(name[k])
  }

  predicate ValidComponent(part: string) {
    && part != "" && part != "." && part != ".."
    && forall k :: 0 <= k < |part| ==> !IsControl(part[k])
  }

  function RelativePathFor(kind: Kind, name: string): string {
    if kind.Skill? then "skills" + "/" + (name + "/" + "SKILL.md")
    else DirName(kind) + "/" + (name + "." + Extension(kind))
  }

  function StripSuffix(s: string, suffix: string): (stem: Option<string>)
    ensures stem.None? ==> forall t :: s != t + suffix
    ensures stem.Some? ==> s == stem.value + suffix
  {
    if |suffix| <= |s| && s[|s| - |suffix|..] == suffix then Some(s[..|s| - |suffix|])
    else
      assert forall t :: (t + suffix)[|t|..] == suffix;
      None
  }

  function SanitizeRelativePath(path: string): Option<string> {
    if path == "" || path[0] == '/' || '\\' in path then None
    else
      var parts := Split(path);
      if |parts| == 1 then None
      else if |parts| == 2 then SanitizeFile(parts[0], parts[1])
      else if && parts[0] == "skills" && ValidName(parts[1])
              && (forall k :: 2 <= k < |parts| ==> ValidComponent(parts[k])) then
        Some(path)
      else None
  }

  function SanitizeFile(dir: string, file: string): Option<string> {
    var kind := FromDirName(dir);
    if file == "" || kind.None? || kind.value.Skill? then None
    else
      var stem := StripSuffix(file, "." + Extension(kind.value));
      if stem.Some? && ValidName(stem.value) then Some(RelativePathFor(kind.value, stem.value)) else None
  }

  /** Validation never rewrites: a path is returned as it is, or refused. */
  lemma {:induction false} SanitizeIsFilter(path: string)
    ensures SanitizeRelativePath(path) in {None, Some(path)}
  {
    JoinOfSplit(path);
    var parts := Split(path);
    if |parts| == 2 {
      SanitizeFileKeeps(parts[0], parts[1]);
      assert path == parts[0] + "/" + parts[1];
    }
  }

  lemma {:induction false} SanitizeFileKeeps(dir: string, file: string)
    ensures SanitizeFile(dir, file) in {None, Some(dir + "/" + file)}
  {
    if SanitizeFile(dir, file).Some? {
      var kind := FromDirName(dir).value;
      var stem := StripSuffix(file, "." + Extension(kind)).value;
      assert DirName(kind) == dir;
      assert stem + ("." + Extension(kind)) == stem + "." + Extension(kind);
    }
  }

  /** What is accepted is accepted again, unchanged. */
  lemma {:induction false} SanitizeIsIdempotent(path: string)
    ensures SanitizeRelativePath(path).Some? ==>
            SanitizeRelativePath(SanitizeRelativePath(path).value) == SanitizeRelativePath(path)
  {
    SanitizeIsFilter(path);
  }

  /** Every path the bundle builds from a valid name is accepted. */
  lemma {:induction false} BuiltPathIsAccepted(kind: Kind, name: string)
    requires ValidName(name)
    ensures SanitizeRelativePath(RelativePathFor(kind, name)) == Some(RelativePathFor(kind, name))
  {
    var path := RelativePathFor(kind, name);
    BuiltPathParts(kind, name);
    BuiltPathHasNoBackslash(kind, name);
    if !kind.Skill? {
      var file := name + "." + Extension(kind);
      assert file == name + ("." + Extension(kind));
      var stem := StripSuffix(file, "." + Extension(kind)).value;
      assert |stem| == |name| && stem == file[..|name|] == name;
    }
  }

  lemma {:induction false} BuiltPathHasNoBackslash(kind: Kind, name: string)
    requires ValidName(name)
    ensures var path := RelativePathFor(kind, name); path != "" && path[0] != '/' && '\\' !in path
  {
    assert '\\' !in DirName(kind) && '\\' !in Extension(kind) && '\\' !in "/" && '\\' !in "." && '\\' !in "SKILL.md";
  }

  lemma {:induction false} BuiltPathParts(kind: Kind, name: string)
    requires ValidName(name)
    ensures Split(RelativePathFor(kind, name))
         == if kind.Skill? then ["skills", name, "SKILL.md"] else [DirName(kind), name + "." + Extension(kind)]
  {
    if kind.Skill? {
      SplitAfter("skills", name + "/" + "SKILL.md");
      SplitAfter(name, "SKILL.md");
      SplitOne("SKILL.md");
    } else {
      var file := name + "." + Extension(kind);
      assert '/' !in Extension(kind) && '/' !in ".";
      SplitAfter(DirName(kind), file);
      SplitOne(file);
    }
  }

  /** Different kinds or names never share a path. */
  lemma {:induction false} BuiltPathsAreDistinct(kind: Kind, name: string, kind': Kind, name': string)
    requires ValidName(name) && ValidName(name')
    requires RelativePathFor(kind, name) == RelativePathFor(kind', name')
    ensures kind == kind' && name == name'
  {
    BuiltPathParts(kind, name);
    BuiltPathParts(kind', name');
    assert Split(RelativePathFor(kind, name))[0] == DirName(kind);
    assert Split(RelativePathFor(kind', name'))[0] == DirName(kind');
    assert Split(RelativePathFor(kind, name))[1] == Split(RelativePathFor(kind', name'))[1];
    if !kind.Skill? {
      var e := "." + Extension(kind);
      assert name + "." + Extension(kind) == name + e && name' + "." + Extension(kind) == name' + e;
      assert |name| == |name'| && (name + e)[..|name|] == (name' + e)[..|name'|];
    }
  }

  // ----------------------------------------------------------------- containment

  /** Lexical resolution below a root: None when the path climbs above it. */
  function Resolved(parts: seq<string>): Option<seq<string>> {
    if parts == [] then Some([])
    else
      var before := Resolved(parts[..|parts| - 1]);
      var last := parts[|parts| - 1];
      if before.None? then None
      else if last == "" || last == "." then before
      else if last != ".." then Some(before.value + [last])
      else if before.value == [] then None
      else Some(before.value[..|before.value| - 1])
  }

  lemma {:induction false} PlainPartsResolveToThemselves(parts: seq<string>)
    requires forall k :: 0 <= k < |parts| ==> parts[k] != "" && parts[k] != "." && parts[k] != ".."
    ensures Resolved(parts) == Some(parts)
  {
    if parts != [] {
      var before := parts[..|parts| - 1];
      PlainPartsResolveToThemselves(before);
      assert before + [parts[|parts| - 1]] == parts;
    }
  }

  /** An accepted path stays in one of the five kind directories, whatever follows it resolves to itself. */
  lemma {:induction false} AcceptedPathStaysInside(path: string)
    requires SanitizeRelativePath(path).Some?
    ensures var parts := Split(path);
            && Resolved(parts) == Some(parts) && |parts| >= 2
            && FromDirName(parts[0]).Some?
            && (|parts| >= 3 ==> parts[0] == "skills")
  {
    var parts := Split(path);
    if |parts| == 2 {
      var kind := FromDirName(parts[0]).value;
      var stem := StripSuffix(parts[1], "." + Extension(kind)).value;
      assert |parts[1]| == |stem| + 1 + |Extension(kind)|;
    }
    PlainPartsResolveToThemselves(parts);
  }

  /** Exactly the built paths of the four flat kinds, and the files below one skill's own directory. */
  lemma {:induction false} AcceptedIff(path: string)
    ensures SanitizeRelativePath(path).Some? <==>
      || (exists kind: Kind, name :: !kind.Skill? && ValidName(name) && path == RelativePathFor(kind, name))
      || ('\\' !in path && |Split(path)| >= 3 && Split(path)[0] == "skills" && ValidName(Split(path)[1])
          && forall k :: 2 <= k < |Split(path)| ==> ValidComponent(Split(path)[k]))
  {
    JoinOfSplit(path);
    var parts := Split(path);
    if SanitizeRelativePath(path).Some? && |parts| == 2 {
      SanitizeIsFilter(path);
      var kind := FromDirName(parts[0]).value;
      var stem := StripSuffix(parts[1], "." + Extension(kind)).value;
      assert path == RelativePathFor(kind, stem);
    }
    if kind: Kind, name :| !kind.Skill? && ValidName(name) && path == RelativePathFor(kind, name) {
      BuiltPathIsAccepted(kind, name);
    }
    if |parts| >= 3 && parts[0] == "skills" {
      assert path[0] == 's';
    }
  }

  // --------------------------------------------------------------- archive paths

  function StripPrefix(s: string, prefix: string): (rest: Option<string>)
    ensures rest.Some? <==> prefix <= s
    ensures rest.Some? ==> s == prefix + rest.value
  {
    if prefix <= s then Some(s[|prefix|..]) else None
  }

  function MapArchivePathToCachePath(path: string): Option<string> {
    var rest := StripPrefix(path, "subagents/");
    if rest.Some? then SanitizeRelativePath(rest.value)
    else if "skills/" <= path || "workflows/" <= path then SanitizeRelativePath(path)
    else None
  }

  function ArchivePathOf(path: string): string {
    if path[..if |path| < 2 then |path| else 2] == "./" then path[2..] else path
  }

  /** The cache path is the archive path, less a leading "subagents/", and is always an accepted one. */
  lemma {:induction false} ArchivePathIsAccepted(path: string)
    requires MapArchivePathToCachePath(path).Some?
    ensures var p := MapArchivePathToCachePath(path).value;
            SanitizeRelativePath(p) == Some(p) && (path == p || path == "subagents/" + p)
  {
    var p := MapArchivePathToCachePath(path).value;
    var rest := StripPrefix(path, "subagents/");
    SanitizeIsFilter(if rest.Some? then rest.value else path);
  }
}
