/**
 The checksum-tracked bundle cache: JSON writes, archive extraction and pruning over
 the files on disk and `manifest.json`. What each operation does is said path by
 path, on a slot: the file's bytes and its record in the sanitized manifest.
 */
module BundleCache {
  import opened Common
  import opened BundlePaths

  type Bytes = seq<Byte>
  type Checksum = Bytes -> string

  const ARCHIVE_MAX_DECOMPRESSED_SIZE: nat := 50 * 1024 * 1024
  const ARCHIVE_MAX_ENTRIES: nat := 1000
  const ARCHIVE_MAX_ENTRY_SIZE: nat := 1024 * 1024

  datatype Manifest = Manifest(version: string, checksums: map<string, string>)

  /** `manifest.json`: not there, not a manifest, or read back. */
  datatype ManifestFile = Missing | Unreadable | Readable(manifest: Manifest)

  datatype State = State(disk: map<string, Bytes>, manifestFile: ManifestFile)

  datatype Slot = Slot(content: Option<Bytes>, record: Option<string>)

  datatype FileState = Absent | MatchesManaged | ModifiedOrUnmanaged

  datatype Failure = BadManifest | InvalidName | BadArchive | NoVersion | Io

  datatype Outcome = Ok(manifest: Manifest) | Err(failure: Failure)

  function Lookup<V>(m: map<string, V>, path: string): Option<V> {
    if path in m then Some(m[path]) else None
  }

  /** The records whose paths pass validation, which never rewrites a path. */
  function SanitizedChecksums(checksums: map<string, string>): map<string, string> {
    map path | path in checksums && SanitizeRelativePath(path) == Some(path) :: checksums[path]
  }

  function Records(file: ManifestFile): map<string, string> {
    if file.Readable? then SanitizedChecksums(file.manifest.checksums) else map[]
  }

  function SlotOf(s: State, path: string): Slot {
    Slot(Lookup(s.disk, path), Lookup(Records(s.manifestFile), path))
  }

  function FileStateOf(sum: Checksum, slot: Slot): FileState {
    if slot.content.None? then Absent
    else if slot.record == Some(sum(slot.content.value)) then MatchesManaged
    else ModifiedOrUnmanaged
  }

  /** A file the user owns: its bytes are not those on record, or there is no record. */
  predicate Protected(sum: Checksum, slot: Slot) {
    FileStateOf(sum, slot) == ModifiedOrUnmanaged
  }

  // ------------------------------------------------ what an operation does to a slot

  /** A JSON write. `incoming` is the bundle's file at this path, if any. */
  function JsonSlot(sum: Checksum, slot: Slot, incoming: Option<Bytes>, isWorkflow: bool): Slot {
    if Protected(sum, slot) then slot
    else if incoming.Some? then Slot(incoming, Some(sum(incoming.value)))
    else if isWorkflow then slot
    else Slot(None, None)
  }

  /** The entry whose bytes stay: the first that stops matching the record, or the last. */
  function LastWritten(sum: Checksum, record: Option<string>, entries: seq<Bytes>): (k: nat)
    requires entries != []
    ensures k < |entries|
    ensures forall j :: 0 <= j < k ==> Some(sum(entries[j])) == record
    ensures k < |entries| - 1 ==> Some(sum(entries[k])) != record
  {
    if |entries| == 1 || Some(sum(entries[0])) != record then 0 else 1 + LastWritten(sum, record, entries[1..])
  }

  /** An archive extract. `entries` are the archive's files at this path, in order. */
  function ArchiveSlot(sum: Checksum, slot: Slot, entries: seq<Bytes>): Slot {
    if Protected(sum, slot) then slot
    else if entries == [] then Slot(None, None)
    else
      var k := LastWritten(sum, slot.record, entries);
      var written := entries[k];
      Slot(Some(written), if k == |entries| - 1 || slot.record.None? then Some(sum(written)) else slot.record)
  }

  /** What a failed operation may leave at a path: only a file it may replace or prune is touched. */
  ghost predicate FailedSlot(sum: Checksum, slot: Slot, content: Option<Bytes>, incoming: seq<Bytes>) {
    || content == slot.content
    || (&& !Protected(sum, slot)
        && if content.Some? then exists x :: x in incoming && content.value <= x
           else incoming == [] && slot.record.Some?)
  }

  // ---------------------------------------------------------- bundles and archives

  datatype File = File(path: string, content: Bytes)

  /** The bytes that come in for one path, in order. */
  function ContentsFor(files: seq<File>, path: string): seq<Bytes> {
    if files == [] then []
    else
      var last := files[|files| - 1];
      ContentsFor(files[..|files| - 1], path) + (if last.path == path then [last.content] else [])
  }

  lemma {:induction false} ContentsForAppend(files: seq<File>, file: File, path: string)
    ensures ContentsFor(files + [file], path)
         == ContentsFor(files, path) + (if file.path == path then [file.content] else [])
  {
    assert (files + [file])[..|files|] == files;
  }

  lemma {:induction false} NoContents()
    ensures forall p :: ContentsFor([], p) == []
  {}

  datatype Bundle = Bundle(version: string, personas: map<string, Bytes>, roles: map<string, Bytes>,
                           agents: map<string, Bytes>, skills: map<string, Bytes>)

  predicate NamesValid(entries: map<string, Bytes>) {
    forall name :: name in entries ==> ValidName(name)
  }

  predicate BundleValid(bundle: Bundle) {
    NamesValid(bundle.personas) && NamesValid(bundle.roles) && NamesValid(bundle.agents) && NamesValid(bundle.skills)
  }

  ghost function ContentOfKind(kind: Kind, entries: map<string, Bytes>, path: string): seq<Bytes> {
    if name :| name in entries && ValidName(name) && path == RelativePathFor(kind, name) then [entries[name]] else []
  }

  /** The bundle's file at a path: none or one. */
  ghost function BundleContents(bundle: Bundle, path: string): seq<Bytes> {
    ContentOfKind(Persona, bundle.personas, path) + ContentOfKind(Role, bundle.roles, path)
    + ContentOfKind(Agent, bundle.agents, path) + ContentOfKind(Skill, bundle.skills, path)
  }

  lemma {:induction false} BundleContentsAtMostOne(bundle: Bundle, path: string)
    ensures |BundleContents(bundle, path)| <= 1
    ensures BundleContents(bundle, path) != [] ==> SanitizeRelativePath(path) == Some(path) && !IsWorkflow(path)
  {
    if kind: Kind, name :| kind != Workflow && ValidName(name) && path == RelativePathFor(kind, name) {
      BuiltPathIsAccepted(kind, name);
      assert path[0] == DirName(kind)[0];
      forall kind': Kind, name' | ValidName(name') && path == RelativePathFor(kind', name')
        ensures kind' == kind
      {
        BuiltPathsAreDistinct(kind, name, kind', name');
      }
    }
  }

  ghost function BundleContent(bundle: Bundle, path: string): Option<Bytes> {
    var contents := BundleContents(bundle, path);
    if contents == [] then None else Some(contents[0])
  }

  predicate IsWorkflow(path: string) { "workflows/" <= path }

  /** An archive entry; `Broken` is one the decoder fails to read. */
  datatype Entry = Entry(regular: bool, size: nat, path: string, content: Bytes) | Broken

  type ParseVersion = Bytes -> Option<string>

  predicate Counts(e: Entry) { e.Entry? && e.regular }

  predicate IsBundleJson(path: string) { path == "bundle.json" }

  predicate IsMetadata(e: Entry) { Counts(e) && IsBundleJson(ArchivePathOf(e.path)) }

  predicate IsFile(e: Entry) { Counts(e) && !IsMetadata(e) && MapArchivePathToCachePath(ArchivePathOf(e.path)).Some? }

  function FileOf(e: Entry): File
    requires IsFile(e)
  {
    File(MapArchivePathToCachePath(ArchivePathOf(e.path)).value, e.content)
  }

  function EntryCount(entries: seq<Entry>): nat {
    if entries == [] then 0
    else EntryCount(entries[..|entries| - 1]) + if Counts(entries[|entries| - 1]) then 1 else 0
  }

  function TotalSize(entries: seq<Entry>): nat {
    if entries == [] then 0
    else TotalSize(entries[..|entries| - 1]) + if Counts(entries[|entries| - 1]) then entries[|entries| - 1].size else 0
  }

  /** The version of the last `bundle.json`, or none. */
  function VersionOf(parse: ParseVersion, entries: seq<Entry>): string {
    if entries == [] then ""
    else
      var last := entries[|entries| - 1];
      if IsMetadata(last) && parse(last.content).Some? then parse(last.content).value
      else VersionOf(parse, entries[..|entries| - 1])
  }

  function ArchiveFiles(entries: seq<Entry>): seq<File> {
    if entries == [] then []
    else
      var last := entries[|entries| - 1];
      ArchiveFiles(entries[..|entries| - 1])
      + if IsFile(last) then [FileOf(last)] else []
  }

  /** Within all three limits, readable, and every `bundle.json` parses. */
  ghost predicate Acceptable(parse: ParseVersion, entries: seq<Entry>) {
    && EntryCount(entries) <= ARCHIVE_MAX_ENTRIES && TotalSize(entries) <= ARCHIVE_MAX_DECOMPRESSED_SIZE
    && forall e :: e in entries ==> EntryOk(parse, e)
  }

  predicate EntryOk(parse: ParseVersion, e: Entry) {
    && !e.Broken? && (Counts(e) ==> e.size <= ARCHIVE_MAX_ENTRY_SIZE)
    && (IsMetadata(e) ==> parse(e.content).Some?)
  }

  lemma {:induction false} PrefixAcceptable(parse: ParseVersion, entries: seq<Entry>, i: nat)
    requires Acceptable(parse, entries) && i <= |entries|
    ensures Acceptable(parse, entries[..i])
    decreases |entries| - i
  {
    if i < |entries| {
      PrefixAcceptable(parse, entries, i + 1);
      assert entries[..i + 1][..i] == entries[..i];
    } else {
      assert entries[..i] == entries;
    }
  }

  lemma {:induction false} BadPrefix(parse: ParseVersion, entries: seq<Entry>, i: nat)
    requires i <= |entries|
    ensures !Acceptable(parse, entries[..i]) ==> !Acceptable(parse, entries)
  {
    if Acceptable(parse, entries) {
      PrefixAcceptable(parse, entries, i);
    }
  }

  // ------------------------------------------------------------- installing files

  /** One file against the record `previous`, over the slot being built. */
  function InstallStep(sum: Checksum, previous: Option<string>, now: Slot, content: Bytes): Slot {
    if FileStateOf(sum, Slot(now.content, previous)) != ModifiedOrUnmanaged then Slot(Some(content), Some(sum(content)))
    else if previous.Some? then Slot(now.content, previous)
    else now
  }

  function InstallAll(sum: Checksum, previous: Option<string>, start: Slot, contents: seq<Bytes>): Slot {
    if contents == [] then start
    else
      InstallStep(sum, previous, InstallAll(sum, previous, start, contents[..|contents| - 1]), contents[|contents| - 1])
  }

  lemma {:induction false} InstallAppend(sum: Checksum, previous: Option<string>, start: Slot, contents: seq<Bytes>,
                                         x: Bytes)
    ensures InstallAll(sum, previous, start, contents + [x])
         == InstallStep(sum, previous, InstallAll(sum, previous, start, contents), x)
  {
    assert (contents + [x])[..|contents|] == contents;
  }

  /** Installing entries in turn, in closed form. */
  lemma {:induction false} InstallAllMeans(sum: Checksum, slot: Slot, contents: seq<Bytes>)
    ensures var r := InstallAll(sum, slot.record, Slot(slot.content, None), contents);
            if contents == [] then r == Slot(slot.content, None) else r == ArchiveSlot(sum, slot, contents)
  {
    if contents != [] {
      var before, x := contents[..|contents| - 1], contents[|contents| - 1];
      InstallAllMeans(sum, slot, before);
      if before != [] {
        LastWrittenAppend(sum, slot.record, before, x);
        assert before + [x] == contents;
      }
    }
  }

  lemma {:induction false} LastWrittenAppend(sum: Checksum, record: Option<string>, entries: seq<Bytes>, x: Bytes)
    requires entries != []
    ensures var k := LastWritten(sum, record, entries);
            LastWritten(sum, record, entries + [x]) == if k == |entries| - 1 && Some(sum(entries[k])) == record
                then |entries| else k
  {
    if |entries| > 1 && Some(sum(entries[0])) == record {
      LastWrittenAppend(sum, record, entries[1..], x);
      assert (entries + [x])[1..] == entries[1..] + [x];
    }
  }

  function CarriedRecord(path: string, previous: Option<string>, now: Option<string>): Option<string> {
    if now.None? && IsWorkflow(path) then previous else now
  }

  /** The slots of all paths after `files` have been installed over `disk`. */
  ghost predicate Installed(sum: Checksum, records: map<string, string>, before: map<string, Bytes>,
                            files: seq<File>, disk: map<string, Bytes>, next: map<string, string>) {
    forall p :: Slot(Lookup(disk, p), Lookup(next, p))
             == InstallAll(sum, Lookup(records, p), Slot(Lookup(before, p), None), ContentsFor(files, p))
  }

  lemma {:induction false} InstalledNothing(sum: Checksum, records: map<string, string>, before: map<string, Bytes>)
    ensures Installed(sum, records, before, [], before, map[])
  {}

  /** Pruning one path after the files are in. */
  function PruneStep(sum: Checksum, previous: Option<string>, now: Slot): Slot {
    if previous.None? || now.record.Some? then now
    else if FileStateOf(sum, Slot(now.content, previous)) == ModifiedOrUnmanaged then Slot(now.content, previous)
    else Slot(None, None)
  }

  lemma {:induction false} InstallAllTouches(sum: Checksum, slot: Slot, contents: seq<Bytes>)
    ensures var r := InstallAll(sum, slot.record, Slot(slot.content, None), contents);
            && FailedSlot(sum, slot, r.content, contents)
            && (r.content == slot.content || (contents != [] && r.content.Some?))
  {
    InstallAllMeans(sum, slot, contents);
    if contents != [] && !Protected(sum, slot) {
      var written := contents[LastWritten(sum, slot.record, contents)];
      assert written in contents && written <= written;
    }
  }

  /** Part-way through the files, no path is worse off than a failure may leave it. */
  lemma {:induction false} InstalledSoFar(sum: Checksum, records: map<string, string>, before: map<string, Bytes>,
                                          files: seq<File>, i: nat, disk: map<string, Bytes>,
                                          next: map<string, string>, p: string)
    requires i <= |files| && Installed(sum, records, before, files[..i], disk, next)
    ensures FailedSlot(sum, Slot(Lookup(before, p), Lookup(records, p)), Lookup(disk, p), ContentsFor(files, p))
  {
    var slot := Slot(Lookup(before, p), Lookup(records, p));
    var contents := ContentsFor(files[..i], p);
    InstallAllTouches(sum, slot, contents);
    assert Slot(Lookup(disk, p), Lookup(next, p)) == InstallAll(sum, slot.record, Slot(slot.content, None), contents);
    ContentsForPrefix(files, i, p);
  }

  lemma {:induction false} ContentsForPrefix(files: seq<File>, i: nat, p: string)
    requires i <= |files|
    ensures forall x :: x in ContentsFor(files[..i], p) ==> x in ContentsFor(files, p)
    decreases |files| - i
  {
    if i == |files| {
      assert files[..i] == files;
    } else {
      ContentsForAppend(files[..i], files[i], p);
      assert files[..i] + [files[i]] == files[..i + 1];
      ContentsForPrefix(files, i + 1, p);
    }
  }

  ghost predicate OnlyAt(path: string, disk: map<string, Bytes>, disk': map<string, Bytes>,
                         next: map<string, string>, next': map<string, string>) {
    forall p :: p != path ==> Lookup(disk', p) == Lookup(disk, p) && Lookup(next', p) == Lookup(next, p)
  }

  /** One file installed, or its installation failed part-way. */
  ghost predicate FileInstalled(sum: Checksum, records: map<string, string>, file: File, ok: bool,
      disk: map<string, Bytes>, disk': map<string, Bytes>, next: map<string, string>, next': map<string, string>) {
    var now, previous := Slot(Lookup(disk, file.path), Lookup(next, file.path)), Lookup(records, file.path);
    var content := Lookup(disk', file.path);
    && OnlyAt(file.path, disk, disk', next, next')
    && if ok then Slot(content, Lookup(next', file.path)) == InstallStep(sum, previous, now, file.content)
       else content == now.content
            || (!Protected(sum, Slot(now.content, previous)) && content.Some? && content.value <= file.content)
  }

  lemma {:induction false} InstalledOneMore(sum: Checksum, records: map<string, string>, before: map<string, Bytes>,
      files: seq<File>, i: nat, ok: bool,
      disk: map<string, Bytes>, disk': map<string, Bytes>, next: map<string, string>, next': map<string, string>)
    requires i < |files| && Installed(sum, records, before, files[..i], disk, next)
    requires FileInstalled(sum, records, files[i], ok, disk, disk', next, next')
    ensures ok ==> Installed(sum, records, before, files[..i + 1], disk', next')
    ensures !ok ==> forall p ::
            FailedSlot(sum, Slot(Lookup(before, p), Lookup(records, p)), Lookup(disk', p), ContentsFor(files, p))
  {
    hide InstallAll, InstallStep, ContentsFor;
    var file := files[i];
    assert files[..i + 1] == files[..i] + [file];
    if ok {
      forall p ensures Slot(Lookup(disk', p), Lookup(next', p))
               == InstallAll(sum, Lookup(records, p), Slot(Lookup(before, p), None), ContentsFor(files[..i + 1], p)) {
        var contents := ContentsFor(files[..i], p);
        ContentsForAppend(files[..i], file, p);
        InstallAppend(sum, Lookup(records, p), Slot(Lookup(before, p), None), contents, file.content);
        assert p != file.path ==> contents + [] == contents;
        assert Slot(Lookup(disk, p), Lookup(next, p))
            == InstallAll(sum, Lookup(records, p), Slot(Lookup(before, p), None), contents);
      }
    } else {
      forall p
        ensures FailedSlot(sum, Slot(Lookup(before, p), Lookup(records, p)), Lookup(disk', p), ContentsFor(files, p))
      {
        InstalledSoFar(sum, records, before, files, i, disk, next, p);
        if p == file.path {
          ContentsForAppend(files[..i], file, p);
          ContentsForPrefix(files, i + 1, p);
          assert file.content in ContentsFor(files[..i + 1], p);
        }
      }
    }
  }

  lemma {:induction false} OneMoreName(files: seq<File>, extended: seq<File>, kind: Kind, done: map<string, Bytes>,
                                       name: string, file: File)
    requires NamesValid(done) && name !in done && ValidName(name) && file.path == RelativePathFor(kind, name)
    requires forall p :: ContentsFor(extended, p) == ContentsFor(files, p) + ContentOfKind(kind, done, p)
    ensures forall p :: ContentsFor(extended + [file], p)
                     == ContentsFor(files, p) + ContentOfKind(kind, done[name := file.content], p)
  {
    forall p ensures ContentsFor(extended + [file], p)
                  == ContentsFor(files, p) + ContentOfKind(kind, done[name := file.content], p) {
      ContentsForAppend(extended, file, p);
      ContentOfOneMore(kind, done, name, file.content, p);
    }
  }

  lemma {:induction false} ContentOfOneMore(kind: Kind, done: map<string, Bytes>, name: string, content: Bytes,
                                            p: string)
    requires NamesValid(done) && name !in done && ValidName(name)
    ensures ContentOfKind(kind, done[name := content], p)
         == ContentOfKind(kind, done, p) + (if RelativePathFor(kind, name) == p then [content] else [])
  {
    var more := done[name := content];
    forall n, m | ValidName(n) && ValidName(m) && p == RelativePathFor(kind, n) && p == RelativePathFor(kind, m)
        ensures n == m {
      BuiltPathsAreDistinct(kind, n, kind, m);
    }
    if n :| n in done && ValidName(n) && p == RelativePathFor(kind, n) {
      assert n in more;
    } else if RelativePathFor(kind, name) == p {
      assert name in more;
    }
  }

  // -------------------------------------------------------------- what a call does

  /** The state after a successful JSON write. */
  ghost predicate JsonDone(sum: Checksum, s: State, bundle: Bundle, s': State) {
    && !s.manifestFile.Unreadable? && s'.manifestFile.Readable? && s'.manifestFile.manifest.version == bundle.version
    && Records(s'.manifestFile) == s'.manifestFile.manifest.checksums
    && forall p :: SlotOf(s', p) == JsonSlot(sum, SlotOf(s, p), BundleContent(bundle, p), IsWorkflow(p))
  }

  /** The state after a successful extract. */
  ghost predicate ArchiveDone(sum: Checksum, s: State, version: string, files: seq<File>, s': State) {
    && !s.manifestFile.Unreadable? && s'.manifestFile.Readable? && s'.manifestFile.manifest.version == version
    && Records(s'.manifestFile) == s'.manifestFile.manifest.checksums
    && forall p :: SlotOf(s', p) == ArchiveSlot(sum, SlotOf(s, p), ContentsFor(files, p))
  }

  /** What a failure leaves of the manifest. */
  ghost predicate Bailed(s: State, s': State) {
    && (s'.manifestFile == s.manifestFile || s'.manifestFile.Unreadable?)
    && (s.manifestFile.Unreadable? ==> s' == s)
  }

  ghost predicate JsonBailed(sum: Checksum, s: State, bundle: Bundle, s': State) {
    && Bailed(s, s')
    && forall p :: FailedSlot(sum, SlotOf(s, p), Lookup(s'.disk, p), BundleContents(bundle, p))
  }

  ghost predicate ArchiveBailed(sum: Checksum, s: State, files: seq<File>, s': State) {
    && Bailed(s, s')
    && forall p :: FailedSlot(sum, SlotOf(s, p), Lookup(s'.disk, p), ContentsFor(files, p))
  }

  /** What an archive without a version leaves: its files are in, its records are not. */
  ghost predicate ArchiveUnversioned(sum: Checksum, s: State, files: seq<File>, s': State) {
    && s'.manifestFile == s.manifestFile
    && forall p :: Lookup(s'.disk, p)
                == if ContentsFor(files, p) == [] then Lookup(s.disk, p)
                   else ArchiveSlot(sum, SlotOf(s, p), ContentsFor(files, p)).content
  }

  /** Reading stops at entry `k`: all before it is acceptable, and with it the archive is not. */
  ghost predicate StopsAt(parse: ParseVersion, entries: seq<Entry>, k: nat) {
    k < |entries| && Acceptable(parse, entries[..k]) && !Acceptable(parse, entries[..k + 1])
  }

  /** A refused archive stops at one place only, so what it leaves is determined. */
  lemma {:induction false} StopsAtOnePlace(parse: ParseVersion, entries: seq<Entry>)
    ensures !Acceptable(parse, entries) <==> exists k: nat :: StopsAt(parse, entries, k)
    ensures forall j: nat, k: nat :: StopsAt(parse, entries, j) && StopsAt(parse, entries, k) ==> j == k
  {
    forall j: nat, k: nat | j < k && StopsAt(parse, entries, j) ensures !StopsAt(parse, entries, k) {
      assert k <= |entries| ==> entries[..k][..j + 1] == entries[..j + 1];
      if k < |entries| {
        BadPrefix(parse, entries[..k], j + 1);
      }
    }
    if k: nat :| StopsAt(parse, entries, k) {
      BadPrefix(parse, entries, k + 1);
    } else {
      ReadsThrough(parse, entries, |entries|);
      assert entries[..|entries|] == entries;
    }
  }

  lemma {:induction false} ReadsThrough(parse: ParseVersion, entries: seq<Entry>, i: nat)
    requires i <= |entries| && forall k: nat :: !StopsAt(parse, entries, k)
    ensures Acceptable(parse, entries[..i])
  {
    if i > 0 {
      ReadsThrough(parse, entries, i - 1);
      assert !StopsAt(parse, entries, i - 1);
    }
  }

  lemma {:induction false} InstalledUnversioned(sum: Checksum, s: State, files: seq<File>, disk: map<string, Bytes>,
                                                next: map<string, string>)
    requires Installed(sum, Records(s.manifestFile), s.disk, files, disk, next)
    ensures ArchiveUnversioned(sum, s, files, State(disk, s.manifestFile))
  {
    hide InstallAll, SanitizedChecksums, ArchiveSlot;
    forall p ensures Lookup(disk, p)
                  == if ContentsFor(files, p) == [] then Lookup(s.disk, p)
                     else ArchiveSlot(sum, SlotOf(s, p), ContentsFor(files, p)).content {
      InstallAllMeans(sum, SlotOf(s, p), ContentsFor(files, p));
      assert Slot(Lookup(disk, p), Lookup(next, p))
          == InstallAll(sum, SlotOf(s, p).record, Slot(Lookup(s.disk, p), None), ContentsFor(files, p));
    }
  }

  /** Pruning done, or failed with some paths pruned. */
  ghost predicate PruneRan(sum: Checksum, records: map<string, string>, retained: map<string, string>, ok: bool,
                           disk: map<string, Bytes>, disk': map<string, Bytes>, next: map<string, string>) {
    forall p ::
      var pruned := PruneStep(sum, Lookup(records, p), Slot(Lookup(disk, p), Lookup(retained, p)));
      if ok then Slot(Lookup(disk', p), Lookup(next, p)) == pruned
      else Lookup(disk', p) == Lookup(disk, p) || Lookup(disk', p) == pruned.content
  }

  /** One path of a JSON write, out of its three passes. */
  lemma {:induction false} JsonSlotMeans(sum: Checksum, slot: Slot, contents: seq<Bytes>, path: string)
    requires |contents| <= 1
    ensures var put := InstallAll(sum, slot.record, Slot(slot.content, None), contents);
            var pruned := PruneStep(sum, slot.record, Slot(put.content, CarriedRecord(path, slot.record, put.record)));
            && pruned == JsonSlot(sum, slot, if contents == [] then None else Some(contents[0]), IsWorkflow(path))
            && FailedSlot(sum, slot, put.content, contents) && FailedSlot(sum, slot, pruned.content, contents)
  {
    InstallAllMeans(sum, slot, contents);
    InstallAllTouches(sum, slot, contents);
  }

  /** One path of an extract, out of its two passes. */
  lemma {:induction false} ArchiveSlotMeans(sum: Checksum, slot: Slot, contents: seq<Bytes>)
    ensures var put := InstallAll(sum, slot.record, Slot(slot.content, None), contents);
            var pruned := PruneStep(sum, slot.record, put);
            && pruned == ArchiveSlot(sum, slot, contents)
            && FailedSlot(sum, slot, put.content, contents) && FailedSlot(sum, slot, pruned.content, contents)
  {
    InstallAllMeans(sum, slot, contents);
    InstallAllTouches(sum, slot, contents);
  }

  /** All records kept are at accepted paths, so sanitizing the new manifest drops none. */
  lemma {:induction false} RecordsOfNext(version: string, next: map<string, string>)
    requires forall p :: p in next ==> SanitizeRelativePath(p) == Some(p)
    ensures Records(Readable(Manifest(version, next))) == next
  {}

  lemma {:induction false} JsonRan(sum: Checksum, s: State, bundle: Bundle, files: seq<File>, ok: bool,
      disk: map<string, Bytes>, put: map<string, string>, carried: map<string, string>,
      disk': map<string, Bytes>, next: map<string, string>)
    requires !s.manifestFile.Unreadable? && forall p :: ContentsFor(files, p) == BundleContents(bundle, p)
    requires Installed(sum, Records(s.manifestFile), s.disk, files, disk, put)
    requires forall p :: Lookup(carried, p) == CarriedRecord(p, Lookup(Records(s.manifestFile), p), Lookup(put, p))
    requires PruneRan(sum, Records(s.manifestFile), carried, ok, disk, disk', next)
    ensures ok ==> JsonDone(sum, s, bundle, State(disk', Readable(Manifest(bundle.version, next))))
    ensures forall p :: FailedSlot(sum, SlotOf(s, p), Lookup(disk', p), BundleContents(bundle, p))
  {
    var records := Records(s.manifestFile);
    forall p
      ensures FailedSlot(sum, SlotOf(s, p), Lookup(disk', p), BundleContents(bundle, p))
      ensures ok ==>
                Slot(Lookup(disk', p), Lookup(next, p))
                == JsonSlot(sum, SlotOf(s, p), BundleContent(bundle, p), IsWorkflow(p))
      ensures ok && p in next ==> SanitizeRelativePath(p) == Some(p)
    {
      var contents := BundleContents(bundle, p);
      BundleContentsAtMostOne(bundle, p);
      JsonSlotMeans(sum, SlotOf(s, p), contents, p);
      assert Slot(Lookup(disk, p), Lookup(put, p))
             == InstallAll(sum, Lookup(records, p), Slot(Lookup(s.disk, p), None), contents);
    }
    if ok {
      RecordsOfNext(bundle.version, next);
    }
  }

  /** What one more entry adds to the archive read so far. */
  lemma {:induction false} OneMoreEntry(parse: ParseVersion, entries: seq<Entry>, i: nat)
    requires i < |entries|
    ensures var e, before, after := entries[i], entries[..i], entries[..i + 1];
            && EntryCount(after) == EntryCount(before) + (if Counts(e) then 1 else 0)
            && TotalSize(after) == TotalSize(before) + (if Counts(e) then e.size else 0)
            && VersionOf(parse, after)
               == (if IsMetadata(e) && parse(e.content).Some? then parse(e.content).value else VersionOf(parse, before))
            && ArchiveFiles(after)
               == (if IsFile(e) then ArchiveFiles(before) + [FileOf(e)]
                   else ArchiveFiles(before))
            && (Acceptable(parse, before) ==>
                EntryCount(before) <= ARCHIVE_MAX_ENTRIES && TotalSize(before) <= ARCHIVE_MAX_DECOMPRESSED_SIZE)
            && (Acceptable(parse, before) ==>
                (Acceptable(parse, after) <==>
                 && EntryOk(parse, e) && EntryCount(after) <= ARCHIVE_MAX_ENTRIES
                 && TotalSize(after) <= ARCHIVE_MAX_DECOMPRESSED_SIZE))
  {
    hide EntryOk, IsMetadata, IsFile, MapArchivePathToCachePath;
    var after := entries[..i + 1];
    assert after[..i] == entries[..i] && after == entries[..i] + [entries[i]];
  }

  lemma {:induction false} NothingRead(parse: ParseVersion, sum: Checksum, s: State, entries: seq<Entry>)
    ensures ArchiveFiles(entries[..0]) == [] && Acceptable(parse, entries[..0])
    ensures EntryCount(entries[..0]) == 0 && TotalSize(entries[..0]) == 0 && VersionOf(parse, entries[..0]) == ""
    ensures ArchiveBailed(sum, s, ArchiveFiles(entries), s)
  {
    hide IsMetadata, IsFile;
  }

  lemma {:induction false} ArchiveFilesPrefix(entries: seq<Entry>, i: nat)
    requires i <= |entries|
    ensures ArchiveFiles(entries[..i]) <= ArchiveFiles(entries)
    decreases |entries| - i
  {
    hide IsFile, MapArchivePathToCachePath;
    if i == |entries| {
      assert entries[..i] == entries;
    } else {
      assert entries[..i + 1][..i] == entries[..i];
      ArchiveFilesPrefix(entries, i + 1);
    }
  }

  lemma {:induction false} ArchiveFilesAccepted(entries: seq<Entry>, p: string)
    ensures ContentsFor(ArchiveFiles(entries), p) != [] ==> SanitizeRelativePath(p) == Some(p)
  {
    if entries != [] {
      var before, last := entries[..|entries| - 1], entries[|entries| - 1];
      ArchiveFilesAccepted(before, p);
      if IsFile(last) {
        ArchivePathIsAccepted(ArchivePathOf(last.path));
        ContentsForAppend(ArchiveFiles(before), FileOf(last), p);
      } else {
        assert ArchiveFiles(before) + [] == ArchiveFiles(before);
      }
    }
  }

  /** A bail while reading the archive, whatever the reason. */
  lemma {:induction false} ArchiveStopped(sum: Checksum, s: State, entries: seq<Entry>, i: nat,
                                          disk: map<string, Bytes>, next: map<string, string>)
    requires i <= |entries| && !s.manifestFile.Unreadable?
    requires Installed(sum, Records(s.manifestFile), s.disk, ArchiveFiles(entries[..i]), disk, next)
    ensures ArchiveBailed(sum, s, ArchiveFiles(entries), State(disk, s.manifestFile))
  {
    hide ArchiveFiles, Installed, FailedSlot, SanitizedChecksums;
    var files, k := ArchiveFiles(entries), |ArchiveFiles(entries[..i])|;
    ArchiveFilesPrefix(entries, i);
    assert files[..k] == ArchiveFiles(entries[..i]);
    forall p ensures FailedSlot(sum, SlotOf(s, p), Lookup(disk, p), ContentsFor(files, p)) {
      InstalledSoFar(sum, Records(s.manifestFile), s.disk, files, k, disk, next, p);
    }
  }

  /** One more file of an archive is in, or its installation failed. */
  lemma {:induction false} ArchiveOneMore(sum: Checksum, s: State, entries: seq<Entry>, i: nat, ok: bool,
      disk: map<string, Bytes>, disk': map<string, Bytes>, next: map<string, string>, next': map<string, string>)
    requires i < |entries| && !s.manifestFile.Unreadable? && IsFile(entries[i])
    requires Installed(sum, Records(s.manifestFile), s.disk, ArchiveFiles(entries[..i]), disk, next)
    requires FileInstalled(sum, Records(s.manifestFile),
               FileOf(entries[i]), ok, disk, disk', next, next')
    ensures ok ==> Installed(sum, Records(s.manifestFile), s.disk, ArchiveFiles(entries[..i + 1]), disk', next')
    ensures !ok ==> ArchiveBailed(sum, s, ArchiveFiles(entries), State(disk', s.manifestFile))
  {
    hide ArchiveFiles, Installed, FileInstalled, FailedSlot, SanitizedChecksums, MapArchivePathToCachePath,
         ArchivePathOf, IsFile, IsMetadata;
    var files, k := ArchiveFiles(entries), |ArchiveFiles(entries[..i])|;
    OneMoreEntry(_ => None, entries, i);
    ArchiveFilesPrefix(entries, i);
    ArchiveFilesPrefix(entries, i + 1);
    assert files[..k] == ArchiveFiles(entries[..i]) && files[..k + 1] == ArchiveFiles(entries[..i + 1]);
    InstalledOneMore(sum, Records(s.manifestFile), s.disk, files, k, ok, disk, disk', next, next');
  }

  lemma {:induction false} ArchiveRan(sum: Checksum, s: State, version: string, entries: seq<Entry>, ok: bool,
      disk: map<string, Bytes>, put: map<string, string>, disk': map<string, Bytes>, next: map<string, string>)
    requires !s.manifestFile.Unreadable?
    requires Installed(sum, Records(s.manifestFile), s.disk, ArchiveFiles(entries), disk, put)
    requires PruneRan(sum, Records(s.manifestFile), put, ok, disk, disk', next)
    ensures ok ==> ArchiveDone(sum, s, version, ArchiveFiles(entries), State(disk', Readable(Manifest(version, next))))
    ensures ArchiveBailed(sum, s, ArchiveFiles(entries), State(disk', s.manifestFile))
  {
    hide ArchiveFiles, LastWritten;
    var records, files := Records(s.manifestFile), ArchiveFiles(entries);
    forall p
      ensures FailedSlot(sum, SlotOf(s, p), Lookup(disk', p), ContentsFor(files, p))
      ensures ok ==> Slot(Lookup(disk', p), Lookup(next, p)) == ArchiveSlot(sum, SlotOf(s, p), ContentsFor(files, p))
      ensures ok && p in next ==> SanitizeRelativePath(p) == Some(p)
    {
      var contents := ContentsFor(files, p);
      ArchiveFilesAccepted(entries, p);
      ArchiveSlotMeans(sum, SlotOf(s, p), contents);
      assert Slot(Lookup(disk, p), Lookup(put, p))
             == InstallAll(sum, Lookup(records, p), Slot(Lookup(s.disk, p), None), contents);
    }
    if ok {
      RecordsOfNext(version, next);
    }
  }

  class Cache {
    var disk: map<string, Bytes>
    var manifestFile: ManifestFile
    const sum: Checksum
    const parse: ParseVersion
    /** Whether reads and writes may fail; when they cannot, an operation fails only for its own reasons. */
    const faulty: bool

    constructor (disk: map<string, Bytes>, manifestFile: ManifestFile, sum: Checksum, parse: ParseVersion, faulty: bool)
      ensures View() == State(disk, manifestFile) && this.sum == sum && this.parse == parse && this.faulty == faulty
    {
      this.disk, this.manifestFile, this.sum, this.parse, this.faulty := disk, manifestFile, sum, parse, faulty;
    }

    ghost function View(): State
      reads this
    {
      State(disk, manifestFile)
    }

    method ReadCachedManifest() returns (result: Option<map<string, string>>)
      ensures result.Some? ==> !manifestFile.Unreadable? && result.value == Records(manifestFile)
      ensures result.None? ==> manifestFile.Unreadable? || faulty
    {
      var fault := Fails(faulty);
      if fault {
        return None;
      }
      match manifestFile {
        case Missing => result := Some(map[]);
        case Unreadable => result := None;
        case Readable(manifest) => result := Some(SanitizedChecksums(manifest.checksums));
      }
    }

    method BundleFileState(path: string, previous: Option<string>) returns (state: Option<FileState>)
      ensures state.Some? ==> state.value == FileStateOf(sum, Slot(Lookup(disk, path), previous))
      ensures state.None? ==> faulty
    {
      var fault := Fails(faulty);
      if fault {
        return None;
      }
      if path !in disk {
        return Some(Absent);
      }
      return if previous == Some(sum(disk[path])) then Some(MatchesManaged) else Some(ModifiedOrUnmanaged);
    }

    /** A failed write leaves the file alone or cut short. */
    method WriteBundleFile(path: string, content: Bytes) returns (ok: bool)
      modifies this`disk
      ensures ok ==> disk == old(disk)[path := content]
      ensures !ok ==> faulty
      ensures !ok ==> disk == old(disk) || exists k: nat :: k <= |content| && disk == old(disk)[path := content[..k]]
    {
      var fault := Fails(faulty);
      if fault {
        if * {
          var k: nat :| k <= |content|;
          disk := disk[path := content[..k]];
        }
        return false;
      }
      disk := disk[path := content];
      return true;
    }

    /** A failed write of the manifest leaves it alone or cut short, which is no manifest. */
    method WriteManifest(manifest: Manifest) returns (ok: bool)
      modifies this`manifestFile
      ensures ok ==> manifestFile == Readable(manifest)
      ensures !ok ==> faulty && (manifestFile == old(manifestFile) || manifestFile == Unreadable)
    {
      var fault := Fails(faulty);
      if fault {
        if * {
          manifestFile := Unreadable;
        }
        return false;
      }
      manifestFile := Readable(manifest);
      return true;
    }

    /** One file of a bundle or an archive: written, or left to its owner with its old record. */
    method InstallFile(file: File, records: map<string, string>, next: map<string, string>)
      returns (ok: bool, next': map<string, string>)
      modifies this`disk
      ensures !ok ==> faulty
      ensures FileInstalled(sum, records, file, ok, old(disk), disk, next, next')
    {
      var previous := Lookup(records, file.path);
      next' := next;
      var state := BundleFileState(file.path, previous);
      if state.None? {
        return false, next;
      }
      if state.value != ModifiedOrUnmanaged {
        ok := WriteBundleFile(file.path, file.content);
        next' := if ok then next[file.path := sum(file.content)] else next;
        return;
      }
      if previous.Some? {
        next' := next[file.path := previous.value];
      }
      ok := true;
    }

    /** Managed files no longer in the bundle go; modified ones stay, with their record. */
    method PruneRemovedFiles(records: map<string, string>, retained: map<string, string>)
      returns (ok: bool, next: map<string, string>)
      modifies this`disk
      ensures !ok ==> faulty
      ensures PruneRan(sum, records, retained, ok, old(disk), disk, next)
    {
      next := retained;
      var todo := records.Keys;
      while todo != {}
        invariant todo <= records.Keys
        invariant forall p :: Slot(Lookup(disk, p), Lookup(next, p))
                           == var now := Slot(old(Lookup(disk, p)), Lookup(retained, p));
                              if p in todo then now else PruneStep(sum, Lookup(records, p), now)
      {
        var path :| path in todo;
        todo := todo - {path};
        if path in next {
          continue;
        }
        var state := BundleFileState(path, Some(records[path]));
        if state.None? {
          return false, next;
        }
        match state.value {
          case Absent =>
          case MatchesManaged =>
            var fault := Fails(faulty);
            if fault {
              return false, next;
            }
            disk := disk - {path};
          case ModifiedOrUnmanaged =>
            next := next[path := records[path]];
        }
      }
      ok := true;
    }

    method ExtendBundleFiles(files: seq<File>, kind: Kind, entries: map<string, Bytes>)
        returns (result: Option<seq<File>>)
      ensures result.None? <==> !NamesValid(entries)
      ensures result.Some? ==> forall p ::
              ContentsFor(result.value, p) == ContentsFor(files, p) + ContentOfKind(kind, entries, p)
    {
      var extended := files;
      var todo := entries.Keys;
      ghost var done: map<string, Bytes> := map[];
      while todo != {}
        invariant todo <= entries.Keys && done == entries - todo && NamesValid(done)
        invariant forall p :: ContentsFor(extended, p) == ContentsFor(files, p) + ContentOfKind(kind, done, p)
      {
        var name :| name in todo;
        if !ValidName(name) {
          return None;
        }
        todo := todo - {name};
        var file := File(RelativePathFor(kind, name), entries[name]);
        OneMoreName(files, extended, kind, done, name, file);
        done := done[name := entries[name]];
        extended := extended + [file];
      }
      assert done == entries;
      result := Some(extended);
    }

    /** The bundle's files, each kind in whatever order its map is walked. */
    method BundleFiles(bundle: Bundle) returns (result: Option<seq<File>>)
      ensures result.None? <==> !BundleValid(bundle)
      ensures result.Some? ==> forall p :: ContentsFor(result.value, p) == BundleContents(bundle, p)
    {
      hide ContentsFor, ContentOfKind, NamesValid;
      NoContents();
      result := ExtendBundleFiles([], Persona, bundle.personas);
      if result.None? { return; }
      assert forall p :: ContentsFor(result.value, p) == ContentOfKind(Persona, bundle.personas, p);
      result := ExtendBundleFiles(result.value, Role, bundle.roles);
      if result.None? { return; }
      result := ExtendBundleFiles(result.value, Agent, bundle.agents);
      if result.None? { return; }
      result := ExtendBundleFiles(result.value, Skill, bundle.skills);
    }

    /** A JSON bundle has no workflows: those on record stay on record. */
    method CarryWorkflows(records: map<string, string>, next: map<string, string>) returns (next': map<string, string>)
      ensures forall p :: Lookup(next', p) == CarriedRecord(p, Lookup(records, p), Lookup(next, p))
    {
      next' := next;
      var todo := records.Keys;
      while todo != {}
        invariant todo <= records.Keys
        invariant forall p :: Lookup(next', p)
                           == if p in todo then Lookup(next, p)
                              else CarriedRecord(p, Lookup(records, p), Lookup(next, p))
      {
        var path :| path in todo;
        todo := todo - {path};
        if IsWorkflow(path) && path !in next' {
          next' := next'[path := records[path]];
        }
      }
    }

    /**
     The JSON write. On success every path is as `JsonSlot` says; on failure no
     protected file has been touched and the manifest is the old one or no manifest.
     */
    method WriteBundleToCache(bundle: Bundle) returns (result: Outcome)
      modifies this
      ensures result.Ok? ==> BundleValid(bundle) && manifestFile == Readable(result.manifest)
      ensures result.Ok? ==> JsonDone(sum, old(View()), bundle, View())
      ensures result.Err? ==> JsonBailed(sum, old(View()), bundle, View())
      ensures !BundleValid(bundle) ==> View() == old(View())
      ensures !faulty ==> (result.Ok? <==> !old(manifestFile).Unreadable? && BundleValid(bundle))
      ensures !faulty ==> (result == Err(BadManifest) <==> old(manifestFile).Unreadable?)
      ensures !faulty ==> (result == Err(InvalidName) <==> !old(manifestFile).Unreadable? && !BundleValid(bundle))
    {
      ghost var s := View();
      var oldManifest := ReadCachedManifest();
      if oldManifest.None? {
        return Err(BadManifest);
      }
      var records := oldManifest.value;
      var fault := Fails(faulty);
      if fault {
        return Err(Io);
      }
      var listed := BundleFiles(bundle);
      if listed.None? {
        return Err(InvalidName);
      }
      var files := listed.value;
      var next: map<string, string> := map[];
      InstalledNothing(sum, records, disk);
      var i := 0;
      while i < |files|
        invariant 0 <= i <= |files| && manifestFile == s.manifestFile
        invariant Installed(sum, records, s.disk, files[..i], disk, next)
      {
        ghost var disk0, next0 := disk, next;
        var ok;
        ok, next := InstallFile(files[i], records, next);
        InstalledOneMore(sum, records, s.disk, files, i, ok, disk0, disk, next0, next);
        if !ok {
          return Err(Io);
        }
        i := i + 1;
      }
      assert files[..i] == files;
      ghost var installed, put := disk, next;
      next := CarryWorkflows(records, next);
      ghost var carried := next;
      var ok;
      ok, next := PruneRemovedFiles(records, next);
      JsonRan(sum, s, bundle, files, ok, installed, put, carried, disk, next);
      if !ok {
        return Err(Io);
      }
      var manifest := Manifest(bundle.version, next);
      ok := WriteManifest(manifest);
      return if ok then Ok(manifest) else Err(Io);
    }

    /**
     Archive extraction. Files are written as the archive is read, so a bail comes after
     some of them; on success every path is as `ArchiveSlot` says.
     */
    method ExtractBundleArchive(entries: seq<Entry>) returns (result: Outcome)
      modifies this
      ensures result.Ok? ==>
              manifestFile == Readable(result.manifest) && Acceptable(parse, entries) && result.manifest.version != ""
                             && ArchiveDone(sum, old(View()), VersionOf(parse, entries), ArchiveFiles(entries), View())
      ensures result.Err? ==> ArchiveBailed(sum, old(View()), ArchiveFiles(entries), View())
      ensures result == Err(BadArchive) ==>
                exists k: nat :: StopsAt(parse, entries, k)
                    && ArchiveUnversioned(sum, old(View()), ArchiveFiles(entries[..k]), View())
      ensures result == Err(NoVersion) ==> Acceptable(parse, entries) && VersionOf(parse, entries) == ""
                                           && ArchiveUnversioned(sum, old(View()), ArchiveFiles(entries), View())
      ensures !faulty ==> (result.Ok? <==>
                           && !old(manifestFile).Unreadable? && Acceptable(parse, entries)
                           && VersionOf(parse, entries) != "")
      ensures !faulty ==> (result == Err(BadManifest) <==> old(manifestFile).Unreadable?)
      ensures !faulty ==> (result == Err(BadArchive) <==> !old(manifestFile).Unreadable? && !Acceptable(parse, entries))
      ensures !faulty ==> (result == Err(NoVersion) <==>
                           && !old(manifestFile).Unreadable? && Acceptable(parse, entries)
                           && VersionOf(parse, entries) == "")
    {
      hide ArchiveFiles, EntryCount, TotalSize, VersionOf, Installed, PruneRan, FileInstalled, ArchiveSlot, FailedSlot,
           ArchiveDone, ArchiveUnversioned, SanitizedChecksums, MapArchivePathToCachePath, ArchivePathOf, IsBundleJson,
           Acceptable;
      ghost var s := View();
      NothingRead(parse, sum, s, entries);
      var oldManifest := ReadCachedManifest();
      if oldManifest.None? {
        return Err(BadManifest);
      }
      var records := oldManifest.value;
      var next: map<string, string> := map[];
      var version, totalDecompressed, entryCount, i := "", 0, 0, 0;
      InstalledNothing(sum, records, disk);
      ArchiveStopped(sum, s, entries, 0, disk, next);
      var fault := Fails(faulty);
      if fault {
        return Err(Io);
      }
      while i < |entries|
        invariant 0 <= i <= |entries| && manifestFile == s.manifestFile
        invariant Acceptable(parse, entries[..i]) && version == VersionOf(parse, entries[..i])
        invariant entryCount == EntryCount(entries[..i]) && totalDecompressed == TotalSize(entries[..i])
        invariant Installed(sum, records, s.disk, ArchiveFiles(entries[..i]), disk, next)
      {
        var entry := entries[i];
        i := i + 1;
        ArchiveStopped(sum, s, entries, i - 1, disk, next);
        OneMoreEntry(parse, entries, i - 1);
        BadPrefix(parse, entries, i);
        InstalledUnversioned(sum, s, ArchiveFiles(entries[..i - 1]), disk, next);
        assert !Acceptable(parse, entries[..i]) ==> StopsAt(parse, entries, i - 1);
        if entry.Broken? {
          return Err(BadArchive);
        }
        if !entry.regular {
          continue;
        }
        entryCount := entryCount + 1;
        if entryCount > ARCHIVE_MAX_ENTRIES || entry.size > ARCHIVE_MAX_ENTRY_SIZE {
          return Err(BadArchive);
        }
        totalDecompressed := totalDecompressed + entry.size;
        if totalDecompressed > ARCHIVE_MAX_DECOMPRESSED_SIZE {
          return Err(BadArchive);
        }
        var path := ArchivePathOf(entry.path);
        if IsBundleJson(path) {
          var meta := parse(entry.content);
          if meta.None? {
            return Err(BadArchive);
          }
          version := meta.value;
          continue;
        }
        var cachePath := MapArchivePathToCachePath(path);
        if cachePath.None? {
          continue;
        }
        ghost var disk0, next0 := disk, next;
        var ok;
        ok, next := InstallFile(File(cachePath.value, entry.content), records, next);
        ArchiveOneMore(sum, s, entries, i - 1, ok, disk0, disk, next0, next);
        if !ok {
          return Err(Io);
        }
      }
      assert entries[..i] == entries;
      ArchiveStopped(sum, s, entries, i, disk, next);
      if version == "" {
        InstalledUnversioned(sum, s, ArchiveFiles(entries), disk, next);
        return Err(NoVersion);
      }
      ghost var installed, put := disk, next;
      var ok;
      ok, next := PruneRemovedFiles(records, next);
      ArchiveRan(sum, s, version, entries, ok, installed, put, disk, next);
      if !ok {
        return Err(Io);
      }
      var manifest := Manifest(version, next);
      ok := WriteManifest(manifest);
      return if ok then Ok(manifest) else Err(Io);
    }
  }
}
