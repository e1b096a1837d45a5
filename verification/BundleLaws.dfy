/**
 What the bundle cache does, said of literal paths, of archive entries by position and
 of the recorded checksums, without the functions that compute it.
 */
module BundleLaws {
  import opened Common
  import opened Positions
  import opened BundlePaths
  import opened BundleCache

  // ----------------------------------------------------------------------- paths

  ghost predicate Accepted(p: string) { SanitizeRelativePath(p) == Some(p) }

  /** Where each kind of a bundle's files goes. */
  lemma {:induction false} BuiltPathsAre(name: string)
    ensures RelativePathFor(Persona, name) == "personas/" + name + ".toml"
    ensures RelativePathFor(Role, name) == "roles/" + name + ".toml"
    ensures RelativePathFor(Agent, name) == "agents/" + name + ".md"
    ensures RelativePathFor(Skill, name) == "skills/" + name + "/SKILL.md"
    ensures RelativePathFor(Workflow, name) == "workflows/" + name + ".rhai"
  {
    ThreePieces("personas", "/", name, ".", "toml", "personas/", ".toml");
    ThreePieces("roles", "/", name, ".", "toml", "roles/", ".toml");
    ThreePieces("agents", "/", name, ".", "md", "agents/", ".md");
    ThreePieces("skills", "/", name, "/", "SKILL.md", "skills/", "/SKILL.md");
    ThreePieces("workflows", "/", name, ".", "rhai", "workflows/", ".rhai");
  }

  lemma {:induction false} ThreePieces(dir: string, slash: string, name: string, dot: string, extension: string,
                                       opening: string, closing: string)
    requires opening == dir + slash && closing == dot + extension
    ensures dir + slash + (name + dot + extension) == opening + name + closing
    ensures dir + slash + (name + (dot + extension)) == opening + name + closing
  {}

  ghost predicate NoControl(s: string) {
    forall k :: 0 <= k < |s| ==> !(s[k] <= '\U{1F}') && !('\U{7F}' <= s[k] <= '\U{9F}')
  }

  lemma {:induction false} NoControlConcat(a: string, b: string)
    requires NoControl(a) && NoControl(b)
    ensures NoControl(a + b)
  {}

  lemma {:induction false} NoControlInNames()
    ensures forall kind: Kind :: NoControl(DirName(kind)) && NoControl("." + Extension(kind))
    ensures NoControl("/")
  {}

  lemma {:induction false} NoControlInJoin(parts: seq<string>)
    requires |parts| > 0 && forall k :: 0 <= k < |parts| ==> NoControl(parts[k])
    ensures NoControl(Join(parts))
  {
    hide NoControl;
    if |parts| > 1 {
      NoControlInNames();
      NoControlInJoin(parts[1..]);
      NoControlConcat(parts[0], "/");
      NoControlConcat(parts[0] + "/", Join(parts[1..]));
    }
  }

  /** An accepted path is relative and holds no backslash and no control character. */
  lemma {:induction false} AcceptedHasNoControl(p: string)
    requires Accepted(p)
    ensures p != "" && p[0] != '/' && '\\' !in p && NoControl(p)
  {
    var parts := Split(p);
    JoinOfSplit(p);
    NoControlInNames();
    forall k | 0 <= k < |parts| ensures NoControl(parts[k]) {
      if |parts| == 2 {
        var kind := FromDirName(parts[0]).value;
        var stem := StripSuffix(parts[1], "." + Extension(kind)).value;
        assert DirName(kind) == parts[0];
        NoControlConcat(stem, "." + Extension(kind));
      }
    }
    NoControlInJoin(parts);
  }

  /** Not empty, `.` or `..`, and without separator or control character. */
  ghost predicate Usable(name: string) {
    name != "" && name != "." && name != ".." && NoControl(name) && '/' !in name && '\\' !in name
  }

  lemma {:induction false} UsableName(name: string)
    ensures Accepted("workflows/" + name + ".rhai") <==> Usable(name)
  {
    hide SanitizeRelativePath;
    BuiltPathsAre(name);
    if ValidName(name) {
      BuiltPathIsAccepted(Workflow, name);
    }
    if Accepted(RelativePathFor(Workflow, name)) {
      AcceptedWorkflow(RelativePathFor(Workflow, name));
      hide ValidName, RelativePathFor;
      var n :| ValidName(n) && RelativePathFor(Workflow, name) == RelativePathFor(Workflow, n);
      BuiltPathsAre(n);
      Unframed("workflows/", name, n, ".rhai");
    }
  }

  lemma {:induction false} Unframed(a: string, x: string, y: string, b: string)
    ensures a + x + b == a + y + b ==> x == y
  {
    var s, t := a + x + b, a + y + b;
    assert s[|a|..|s| - |b|] == x && t[|a|..|t| - |b|] == y;
  }

  lemma {:induction false} AcceptedWorkflow(path: string)
    requires Accepted(path) && path != "" && path[0] == 'w'
    ensures exists n :: ValidName(n) && path == RelativePathFor(Workflow, n)
  {
    hide SanitizeRelativePath, ValidName, ValidComponent;
    AcceptedIff(path);
    if |Split(path)| >= 3 && Split(path)[0] == "skills" {
      SkillsStartWithS(path);
    }
    if kind: Kind, n :| !kind.Skill? && ValidName(n) && path == RelativePathFor(kind, n) {
      assert path[0] == DirName(kind)[0];
    }
  }

  lemma {:induction false} SkillsStartWithS(path: string)
    requires |Split(path)| > 1 && Split(path)[0] == "skills"
    ensures path != "" && path[0] == 's'
  {
    hide Split;
    JoinOfSplit(path);
    var rest := Join(Split(path)[1..]);
    assert path == "skills" + "/" + rest;
  }

  lemma {:induction false} SplitLast(dir: string, part: string)
    requires '/' !in part
    ensures Split(dir + "/" + part) == Split(dir) + [part]
  {
    var s := dir + "/" + part;
    if dir == "" {
      assert s[1..] == part;
      SplitOne(part);
    } else {
      assert s[1..] == dir[1..] + "/" + part;
      SplitLast(dir[1..], part);
    }
  }

  /** Below a skill's directory any usable component may follow, to any depth, and nothing else. */
  lemma {:induction false} SkillPathIff(dir: string, part: string)
    requires '/' !in part && "skills/" <= dir
    ensures Accepted(dir + "/" + part) <==>
            (Accepted(dir) || exists name :: Usable(name) && dir == "skills/" + name) && Usable(part)
  {
    var s, parts := dir + "/" + part, Split(dir);
    SplitLast(dir, part);
    SkillDirParts(dir);
    JoinOfSplit(dir);
    SkillAccepted(s);
    assert Usable(part) <==> ValidComponent(part) && '\\' !in part;
    assert '\\' in s <==> '\\' in dir || '\\' in part;
    hide Split, SanitizeRelativePath, ValidComponent;
    assert Split(s)[|parts|] == part && forall k :: 0 <= k < |parts| ==> Split(s)[k] == parts[k];
    if |parts| >= 3 {
      SkillAccepted(dir);
      forall name ensures !(Usable(name) && dir == "skills/" + name) {
        if Usable(name) && dir == "skills/" + name {
          PlainNameIsOnePart(dir, name);
        }
      }
    } else {
      PlainNameIsOnePart(dir, parts[1]);
      assert Usable(parts[1]) <==> ValidName(parts[1]) && '\\' !in dir;
      if name :| Usable(name) && dir == "skills/" + name {
        PlainNameIsOnePart(dir, name);
      }
    }
  }

  lemma {:induction false} SkillAccepted(p: string)
    requires "skills/" <= p && |Split(p)| >= 3
    ensures Accepted(p) <==>
      '\\' !in p && ValidName(Split(p)[1]) && forall k :: 2 <= k < |Split(p)| ==> ValidComponent(Split(p)[k])
  {
    SkillDirParts(p);
    hide Split, ValidName, ValidComponent;
  }

  lemma {:induction false} PlainNameIsOnePart(dir: string, name: string)
    requires dir == "skills/" + name && '/' !in name
    ensures Split(dir) == ["skills", name]
    ensures '\\' in dir <==> '\\' in name
  {
    assert dir == "skills" + "/" + name && '\\' !in "skills/";
    SplitAfter("skills", name);
    SplitOne(name);
  }

  lemma {:induction false} SkillDirParts(dir: string)
    requires "skills/" <= dir
    ensures |Split(dir)| >= 2 && Split(dir)[0] == "skills" && dir[0] == 's'
    ensures |Split(dir)| == 2 ==> dir == "skills/" + Split(dir)[1] && !Accepted(dir)
  {
    var rest := dir[|"skills/"|..];
    assert dir == "skills" + "/" + rest;
    SplitAfter("skills", rest);
    JoinOfSplit(dir);
  }

  /** What an archive path is called in the cache: a path below `subagents/` loses that, the others stay. */
  lemma {:induction false} MapsToIff(path: string, p: string)
    ensures MapArchivePathToCachePath(path) == Some(p) <==>
            Accepted(p) && (path == "subagents/" + p || (path == p && ("skills/" <= p || "workflows/" <= p)))
  {
    hide SanitizeRelativePath;
    var rest := StripPrefix(path, "subagents/");
    SanitizeIsFilter(if rest.Some? then rest.value else path);
    if path == "subagents/" + p {
      assert rest == Some(p);
    } else if path == p && ("skills/" <= p || "workflows/" <= p) {
      assert p[1] == "skills/"[1] || p[0] == "workflows/"[0];
      assert "subagents/"[0] == 's' && "subagents/"[1] == 'u' && "skills/"[1] == 'k' && "workflows/"[0] == 'w';
    }
  }

  // --------------------------------------------------------------------- entries

  /** The archive has something for `p` under this path, or under it with `./` in front. */
  ghost predicate IsPathFor(path: string, p: string) {
    path == "subagents/" + p || (path == p && ("skills/" <= p || "workflows/" <= p))
  }

  /** The entry is a file for the cache path `p`. */
  ghost predicate IsFor(e: Entry, p: string) {
    && e.Entry? && e.regular && Accepted(p)
    && (IsPathFor(e.path, p) || ("./" <= e.path && IsPathFor(e.path[2..], p)))
  }

  ghost predicate IsManifestEntry(e: Entry) {
    e.Entry? && e.regular && (e.path == "bundle.json" || e.path == "./bundle.json")
  }

  lemma {:induction false} ManifestEntryIff(e: Entry)
    ensures IsMetadata(e) <==> IsManifestEntry(e)
  {
    if e.Entry? {
      assert "./bundle.json" == "./" + "bundle.json";
      assert "./" <= e.path ==> e.path == "./" + e.path[2..];
      assert "./"[0] == '.' && "bundle.json"[0] == 'b';
    }
  }

  lemma {:induction false} PathForShape(path: string, p: string)
    requires IsPathFor(path, p)
    ensures path != "" && (path[0] == 's' || path[0] == 'w')
  {
    assert "subagents/"[0] == 's' && "skills/"[0] == 's' && "workflows/"[0] == 'w';
  }

  lemma {:induction false} IsForIff(e: Entry, p: string)
    ensures IsFile(e) && FileOf(e).path == p <==> IsFor(e, p)
  {
    hide SanitizeRelativePath, MapArchivePathToCachePath, IsPathFor;
    if e.Entry? && e.regular {
      var path := ArchivePathOf(e.path);
      if IsPathFor(e.path, p) {
        PathForShape(e.path, p);
      }
      if "./" <= e.path && IsPathFor(e.path[2..], p) {
        PathForShape(e.path[2..], p);
      }
      if IsPathFor(path, p) {
        PathForShape(path, p);
      }
      MapsAsNamed(path, p);
      assert "./"[0] == '.' && "bundle.json"[0] == 'b';
    }
  }

  lemma {:induction false} MapsAsNamed(path: string, p: string)
    ensures MapArchivePathToCachePath(path) == Some(p) <==> Accepted(p) && IsPathFor(path, p)
  {
    MapsToIff(path, p);
  }

  ghost function Contents(entries: seq<Entry>): seq<Bytes> {
    seq(|entries|, k requires 0 <= k < |entries| => if entries[k].Entry? then entries[k].content else [])
  }

  ghost function EntriesFor(entries: seq<Entry>, p: string): set<nat> {
    set k: nat | k < |entries| && IsFor(entries[k], p)
  }

  /** The bytes an archive brings for a path are those of exactly its entries for that path, in archive order. */
  lemma {:induction false} ContentsByPosition(entries: seq<Entry>, p: string)
    ensures Picks(Contents(entries), EntriesFor(entries, p), ContentsFor(ArchiveFiles(entries), p))
  {
    if entries == [] {
      PicksNone(Contents(entries), EntriesFor(entries, p));
    } else {
      var init, last := entries[..|entries| - 1], entries[|entries| - 1];
      ContentsByPosition(init, p);
      OneMoreContent(entries, init, last, p);
      hide Picks, IsFor, ContentsFor, ArchiveFiles;
      OneMoreEntryFor(entries, init, last, p);
      hide Contents, EntriesFor;
      PicksOneMore(Contents(init), if last.Entry? then last.content else [], EntriesFor(init, p),
                   ContentsFor(ArchiveFiles(init), p), EntriesFor(entries, p));
    }
  }

  lemma {:induction false} OneMoreContent(entries: seq<Entry>, init: seq<Entry>, last: Entry, p: string)
    requires entries != [] && init == entries[..|entries| - 1] && last == entries[|entries| - 1]
    ensures ContentsFor(ArchiveFiles(entries), p)
         == if IsFor(last, p) then ContentsFor(ArchiveFiles(init), p) + [last.content]
            else ContentsFor(ArchiveFiles(init), p)
  {
    IsForIff(last, p);
    hide IsFor, IsFile, ContentsFor;
    var files, contents := ArchiveFiles(init), ContentsFor(ArchiveFiles(init), p);
    if IsFile(last) {
      assert ArchiveFiles(entries) == files + [FileOf(last)];
      ContentsForAppend(files, FileOf(last), p);
      assert FileOf(last).path != p ==> contents + [] == contents;
    } else {
      assert ArchiveFiles(entries) == files;
    }
  }

  lemma {:induction false} OneMoreEntryFor(entries: seq<Entry>, init: seq<Entry>, last: Entry, p: string)
    requires entries != [] && init == entries[..|entries| - 1] && last == entries[|entries| - 1]
    ensures |Contents(init)| == |init| && (IsFor(last, p) ==> last.Entry?)
    ensures Contents(entries) == Contents(init) + [if last.Entry? then last.content else []]
    ensures forall k: nat :: k < |init| ==> (k in EntriesFor(entries, p) <==> k in EntriesFor(init, p))
    ensures |init| in EntriesFor(entries, p) <==> IsFor(last, p)
  {
    ForIsAFile(last, p);
    hide IsFor;
    assert forall k :: 0 <= k < |init| ==> init[k] == entries[k];
  }

  lemma {:induction false} ForIsAFile(e: Entry, p: string)
    ensures IsFor(e, p) ==> e.Entry?
  {}

  lemma {:induction false} FewContents(entries: seq<Entry>, p: string)
    ensures (forall j :: 0 <= j < |entries| ==> !IsFor(entries[j], p)) ==> ContentsFor(ArchiveFiles(entries), p) == []
    ensures forall k :: 0 <= k < |entries| && IsFor(entries[k], p)
                        && (forall j :: 0 <= j < |entries| && j != k ==> !IsFor(entries[j], p)) ==>
                          entries[k].Entry? && ContentsFor(ArchiveFiles(entries), p) == [entries[k].content]
  {
    if forall j :: 0 <= j < |entries| ==> !IsFor(entries[j], p) {
      ContentsByPosition(entries, p);
      PicksFew(Contents(entries), EntriesFor(entries, p), ContentsFor(ArchiveFiles(entries), p));
    }
    hide IsFor, ContentsFor, ArchiveFiles;
    forall k: nat | k < |entries| && IsFor(entries[k], p)
        && (forall j :: 0 <= j < |entries| && j != k ==> !IsFor(entries[j], p))
      ensures entries[k].Entry? && ContentsFor(ArchiveFiles(entries), p) == [entries[k].content]
    {
      OneContent(entries, p, k);
    }
  }

  lemma {:induction false} OneContent(entries: seq<Entry>, p: string, k: nat)
    requires k < |entries| && IsFor(entries[k], p)
    requires forall j :: 0 <= j < |entries| && j != k ==> !IsFor(entries[j], p)
    ensures entries[k].Entry? && ContentsFor(ArchiveFiles(entries), p) == [entries[k].content]
  {
    ForIsAFile(entries[k], p);
    hide IsFor, ContentsFor, ArchiveFiles, Picks;
    ContentsByPosition(entries, p);
    assert Contents(entries)[k] == entries[k].content;
    forall j: nat | j < |entries| ensures j in EntriesFor(entries, p) <==> j == k {}
    PicksFew(Contents(entries), EntriesFor(entries, p), ContentsFor(ArchiveFiles(entries), p));
  }

  /** The version is that of the last `bundle.json`. */
  lemma {:induction false} VersionIsTheLast(parse: ParseVersion, entries: seq<Entry>, k: nat)
    requires forall e :: e in entries && IsManifestEntry(e) ==> parse(e.content).Some?
    ensures k < |entries| && IsManifestEntry(entries[k])
            && (forall j :: k < j < |entries| ==> !IsManifestEntry(entries[j])) ==>
              VersionOf(parse, entries) == parse(entries[k].content).value
    ensures (forall j :: 0 <= j < |entries| ==> !IsManifestEntry(entries[j])) ==> VersionOf(parse, entries) == ""
  {
    if entries != [] {
      hide IsManifestEntry, IsMetadata;
      var init, last := entries[..|entries| - 1], entries[|entries| - 1];
      ManifestEntryIff(last);
      assert entries == init + [last];
      VersionIsTheLast(parse, init, k);
    }
  }

  /** Counts and sizes add up over the entries; what is no regular file counts nothing. */
  lemma {:induction false} TalliesAddUp(a: seq<Entry>, b: seq<Entry>)
    ensures EntryCount(a + b) == EntryCount(a) + EntryCount(b) && TotalSize(a + b) == TotalSize(a) + TotalSize(b)
    ensures forall e :: EntryCount([e]) == (if e.Entry? && e.regular then 1 else 0)
                        && TotalSize([e]) == if e.Entry? && e.regular then e.size else 0
  {
    forall e: Entry ensures [e][..0] == [] {}
    if b == [] {
      assert a + b == a;
    } else {
      assert (a + b)[..|a + b| - 1] == a + b[..|b| - 1];
      TalliesAddUp(a, b[..|b| - 1]);
    }
  }

  /** Readable, within a mebibyte if a file, parsed if a `bundle.json`. */
  ghost predicate Meets(parse: ParseVersion, e: Entry) {
    && e.Entry? && (e.regular ==> e.size <= 1048576)
    && (IsManifestEntry(e) ==> parse(e.content).Some?)
  }

  /** What an archive must meet: a thousand files at most, fifty mebibytes in all, and every entry in order. */
  lemma {:induction false} AcceptableIff(parse: ParseVersion, entries: seq<Entry>)
    ensures Acceptable(parse, entries) <==>
              EntryCount(entries) <= 1000 && TotalSize(entries) <= 52428800
              && forall e :: e in entries ==> Meets(parse, e)
  {
    forall e ensures EntryOk(parse, e) <==> Meets(parse, e) {
      ManifestEntryIff(e);
    }
    hide EntryOk, Meets, EntryCount, TotalSize;
  }

  // -------------------------------------------------------------------- outcomes

  /** The file is missing, or its bytes are those on record at an accepted path. */
  ghost predicate Replaceable(sum: Checksum, s: State, p: string) {
    || p !in s.disk
    || (&& s.manifestFile.Readable? && p in s.manifestFile.manifest.checksums && Accepted(p)
        && s.manifestFile.manifest.checksums[p] == sum(s.disk[p]))
  }

  lemma {:induction false} ReplaceableIff(sum: Checksum, s: State, p: string)
    ensures Replaceable(sum, s, p) <==> !Protected(sum, SlotOf(s, p))
  {
    hide SanitizeRelativePath;
  }

  /** At `p` there are these bytes, and their checksum is on record. */
  ghost predicate Managed(sum: Checksum, s: State, p: string, content: Bytes) {
    && p in s.disk && s.disk[p] == content
    && s.manifestFile.Readable? && p in s.manifestFile.manifest.checksums
    && s.manifestFile.manifest.checksums[p] == sum(content)
  }

  ghost predicate Gone(s: State, p: string) {
    p !in s.disk && s.manifestFile.Readable? && p !in s.manifestFile.manifest.checksums
  }

  /**
   After an extract: where the file could be replaced, a path with one entry holds that
   entry's bytes, under management, and a path with none is gone. Where it could not,
   the file is as it was.
   */
  lemma {:induction false} ExtractOutcome(sum: Checksum, parse: ParseVersion, s: State, entries: seq<Entry>,
                                          s': State, p: string)
    requires ArchiveDone(sum, s, VersionOf(parse, entries), ArchiveFiles(entries), s')
    ensures Replaceable(sum, s, p) ==>
              forall k :: 0 <= k < |entries| && IsFor(entries[k], p)
                          && (forall j :: 0 <= j < |entries| && j != k ==> !IsFor(entries[j], p)) ==>
                            Managed(sum, s', p, entries[k].content)
    ensures Replaceable(sum, s, p) && (forall j :: 0 <= j < |entries| ==> !IsFor(entries[j], p)) ==> Gone(s', p)
    ensures !Replaceable(sum, s, p) ==> p in s'.disk && s'.disk[p] == s.disk[p]
  {
    FewContents(entries, p);
    ReplaceableIff(sum, s, p);
    hide IsFor, ContentsFor, ArchiveFiles, VersionOf, Replaceable, SanitizedChecksums;
    var contents := ContentsFor(ArchiveFiles(entries), p);
    assert SlotOf(s', p) == ArchiveSlot(sum, SlotOf(s, p), contents);
    assert Lookup(Records(s'.manifestFile), p) == Lookup(s'.manifestFile.manifest.checksums, p);
  }

  /** The bundle has `content` for `p`. */
  ghost predicate Brings(bundle: Bundle, p: string, content: Bytes) {
    exists name ::
      || (name in bundle.personas && bundle.personas[name] == content && p == "personas/" + name + ".toml")
      || (name in bundle.roles && bundle.roles[name] == content && p == "roles/" + name + ".toml")
      || (name in bundle.agents && bundle.agents[name] == content && p == "agents/" + name + ".md")
      || (name in bundle.skills && bundle.skills[name] == content && p == "skills/" + name + "/SKILL.md")
  }

  /** A path is one name's of the kind, and then the kind's file is that name's. */
  lemma {:induction false} KindBrings(kind: Kind, entries: map<string, Bytes>, p: string, content: Bytes)
    requires NamesValid(entries)
    ensures ContentOfKind(kind, entries, p) == [content] <==>
            exists name :: name in entries && entries[name] == content && p == RelativePathFor(kind, name)
  {
    hide RelativePathFor;
    forall n, m | ValidName(n) && ValidName(m) && p == RelativePathFor(kind, n) && p == RelativePathFor(kind, m)
      ensures n == m
    {
      BuiltPathsAreDistinct(kind, n, kind, m);
    }
  }

  /** Each of the four maps is written under its own directory and extension, and nothing else is written. */
  lemma {:induction false} BundleBrings(bundle: Bundle, p: string, content: Bytes)
    requires BundleValid(bundle)
    ensures BundleContents(bundle, p) == [content] <==> Brings(bundle, p, content)
    ensures BundleContents(bundle, p) == [] <==> forall x :: !Brings(bundle, p, x)
  {
    BundleContentsAtMostOne(bundle, p);
    BringsWhat(bundle, p, content);
    if BundleContents(bundle, p) != [] {
      BringsWhat(bundle, p, BundleContents(bundle, p)[0]);
    }
    forall x | Brings(bundle, p, x) ensures BundleContents(bundle, p) == [x] {
      BringsWhat(bundle, p, x);
    }
  }

  lemma {:induction false} BringsWhat(bundle: Bundle, p: string, content: Bytes)
    requires BundleValid(bundle)
    ensures BundleContents(bundle, p) == [content] <==> Brings(bundle, p, content)
  {
    BundleContentsAtMostOne(bundle, p);
    KindBrings(Persona, bundle.personas, p, content);
    KindBrings(Role, bundle.roles, p, content);
    KindBrings(Agent, bundle.agents, p, content);
    KindBrings(Skill, bundle.skills, p, content);
    OneOfFour(ContentOfKind(Persona, bundle.personas, p), ContentOfKind(Role, bundle.roles, p),
              ContentOfKind(Agent, bundle.agents, p), ContentOfKind(Skill, bundle.skills, p), content);
    hide ContentOfKind, RelativePathFor, BundleContents;
    forall name {
      BuiltPathsAre(name);
    }
  }

  lemma {:induction false} OneOfFour(a: seq<Bytes>, b: seq<Bytes>, c: seq<Bytes>, d: seq<Bytes>, x: Bytes)
    requires |a + b + c + d| <= 1
    ensures a + b + c + d == [x] <==> a == [x] || b == [x] || c == [x] || d == [x]
  {}

  /**
   After a JSON write: where the file could be replaced, what the bundle has for the path
   is there, under management; what it has nothing for is gone, workflows apart. Where the
   file could not be replaced it is as it was.
   */
  lemma {:induction false} JsonOutcome(sum: Checksum, s: State, bundle: Bundle, s': State, p: string)
    requires JsonDone(sum, s, bundle, s') && BundleValid(bundle)
    ensures Replaceable(sum, s, p) ==> forall x :: Brings(bundle, p, x) ==> Managed(sum, s', p, x)
    ensures Replaceable(sum, s, p) && (forall x :: !Brings(bundle, p, x)) && !("workflows/" <= p) ==> Gone(s', p)
    ensures !Replaceable(sum, s, p) || "workflows/" <= p ==> Lookup(s'.disk, p) == Lookup(s.disk, p)
  {
    ReplaceableIff(sum, s, p);
    BundleContentsAtMostOne(bundle, p);
    forall x ensures BundleContents(bundle, p) == [x] <==> Brings(bundle, p, x) {
      BundleBrings(bundle, p, x);
    }
    BundleBrings(bundle, p, []);
    hide Brings, BundleContents, BundleValid, Replaceable, SanitizedChecksums, SanitizeRelativePath;
    assert SlotOf(s', p) == JsonSlot(sum, SlotOf(s, p), BundleContent(bundle, p), IsWorkflow(p));
    assert Lookup(Records(s'.manifestFile), p) == Lookup(s'.manifestFile.manifest.checksums, p);
  }
}
