/**
 Runs of the bundle cache: JSON writes and extracts, finished or bailed part-way,
 mixed with the user's own edits and deletions.
 */
module BundleRuns {
  import opened Common
  import opened BundlePaths
  import opened BundleCache

  datatype Event =
    | Json(bundle: Bundle) | Extract(entries: seq<Entry>) | Edit(path: string, content: Bytes) | Delete(path: string)

  /** One event; `Cache`'s two operations are shown to do what this says. */
  ghost predicate Step(sum: Checksum, parse: ParseVersion, s: State, e: Event, s': State) {
    match e
    case Json(bundle) => JsonDone(sum, s, bundle, s') || JsonBailed(sum, s, bundle, s')
    case Extract(entries) =>
      || ArchiveDone(sum, s, VersionOf(parse, entries), ArchiveFiles(entries), s')
      || ArchiveBailed(sum, s, ArchiveFiles(entries), s')
    case Edit(path, content) => s' == s.(disk := s.disk[path := content])
    case Delete(path) => s' == s.(disk := s.disk - {path})
  }

  predicate TouchedByUser(e: Event, path: string) {
    (e.Edit? || e.Delete?) && e.path == path
  }

  ghost predicate IsRun(sum: Checksum, parse: ParseVersion, trace: seq<State>, events: seq<Event>) {
    && |trace| == |events| + 1
    && forall k :: 0 <= k < |events| ==> Step(sum, parse, trace[k], events[k], trace[k + 1])
  }

  lemma {:induction false} StepAtPath(sum: Checksum, parse: ParseVersion, s: State, e: Event, s': State, path: string)
    requires Step(sum, parse, s, e, s')
    ensures e.Json? ==>
              (|| FailedSlot(sum, SlotOf(s, path), Lookup(s'.disk, path), BundleContents(e.bundle, path))
               || SlotOf(s', path) == JsonSlot(sum, SlotOf(s, path), BundleContent(e.bundle, path), IsWorkflow(path)))
    ensures e.Extract? ==>
              (|| FailedSlot(sum, SlotOf(s, path), Lookup(s'.disk, path), ContentsFor(ArchiveFiles(e.entries), path))
               || SlotOf(s', path) == ArchiveSlot(sum, SlotOf(s, path), ContentsFor(ArchiveFiles(e.entries), path)))
  {}

  lemma {:induction false} StepKeepsProtected(sum: Checksum, parse: ParseVersion, s: State, e: Event, s': State,
                                              path: string)
    requires Step(sum, parse, s, e, s') && Protected(sum, SlotOf(s, path)) && !TouchedByUser(e, path)
    ensures Lookup(s'.disk, path) == Lookup(s.disk, path)
    ensures s'.manifestFile.Unreadable? || SlotOf(s', path) == SlotOf(s, path)
    ensures Protected(sum, SlotOf(s', path))
  {
    hide ArchiveFiles, BundleContents, VersionOf, ContentsFor, SanitizedChecksums;
    StepAtPath(sum, parse, s, e, s', path);
  }

  /**
   Over any run, failures included, a file whose bytes are not those on record is never
   overwritten or removed except by its user, and never becomes managed by itself.
   */
  lemma {:induction false} ProtectedStaysUntouched(sum: Checksum, parse: ParseVersion, trace: seq<State>,
                                                   events: seq<Event>, path: string, i: nat, j: nat)
    requires IsRun(sum, parse, trace, events) && i <= j < |trace|
    requires Protected(sum, SlotOf(trace[i], path))
    requires forall k :: i <= k < j ==> !TouchedByUser(events[k], path)
    ensures Lookup(trace[j].disk, path) == Lookup(trace[i].disk, path)
    ensures Protected(sum, SlotOf(trace[j], path))
    ensures !trace[j].manifestFile.Unreadable? ==> SlotOf(trace[j], path) == SlotOf(trace[i], path)
    decreases j - i
  {
    hide Protected, SlotOf, Step;
    if i < j {
      ProtectedStaysUntouched(sum, parse, trace, events, path, i, j - 1);
      StepKeepsProtected(sum, parse, trace[j - 1], events[j - 1], trace[j], path);
      UnreadableStays(sum, parse, trace[j - 1], events[j - 1], trace[j]);
    }
  }

  lemma {:induction false} UnreadableStays(sum: Checksum, parse: ParseVersion, s: State, e: Event, s': State)
    requires Step(sum, parse, s, e, s')
    ensures s.manifestFile.Unreadable? ==> s'.manifestFile.Unreadable?
  {}

  /** Neither operation touches a path the validation refuses, such as one outside the cache. */
  lemma {:induction false} RefusedPathsUntouched(sum: Checksum, parse: ParseVersion, s: State, e: Event, s': State,
                                                 path: string)
    requires Step(sum, parse, s, e, s') && (e.Json? || e.Extract?)
    requires SanitizeRelativePath(path) != Some(path)
    ensures Lookup(s'.disk, path) == Lookup(s.disk, path)
  {
    hide ArchiveFiles, BundleContents, VersionOf, ContentsFor, SanitizeRelativePath;
    StepAtPath(sum, parse, s, e, s', path);
    if e.Json? {
      BundleContentsAtMostOne(e.bundle, path);
    } else {
      ArchiveFilesAccepted(e.entries, path);
    }
  }

  // ------------------------------------------------------------------ JSON writes

  /**
   After a JSON write each record matches its file, or is the old record of a file the
   user had modified, or is a workflow carried over; a workflow's file is never touched;
   and a file nobody modified that is in neither the bundle nor `workflows/` is gone.
   */
  lemma {:induction false} JsonWriteOutcome(sum: Checksum, s: State, bundle: Bundle, s': State, path: string)
    requires JsonDone(sum, s, bundle, s')
    ensures var before, after := SlotOf(s, path), SlotOf(s', path);
            && (path in s'.manifestFile.manifest.checksums ==>
                || (path in s'.disk && after.record == Some(sum(s'.disk[path])))
                || (after.record == before.record && (Protected(sum, before) || IsWorkflow(path))))
            && (IsWorkflow(path) ==> after == before)
            && (BundleContents(bundle, path) == [] && !IsWorkflow(path) && !Protected(sum, before) ==>
                path !in s'.disk && path !in s'.manifestFile.manifest.checksums)
            && (BundleContents(bundle, path) != [] && !Protected(sum, before) ==>
                path in s'.disk && s'.disk[path] == BundleContents(bundle, path)[0])
  {
    BundleContentsAtMostOne(bundle, path);
    hide BundleContents, SanitizedChecksums, IsWorkflow, SanitizeRelativePath;
    assert SlotOf(s', path) == JsonSlot(sum, SlotOf(s, path), BundleContent(bundle, path), IsWorkflow(path));
    assert Lookup(Records(s'.manifestFile), path) == Lookup(s'.manifestFile.manifest.checksums, path);
  }

  /** States that look alike at every path, with fully sanitized records, are equal. */
  lemma {:induction false} SameSlotsSameState(s: State, s': State)
    requires s.manifestFile.Readable? && s'.manifestFile.Readable?
    requires s.manifestFile.manifest.version == s'.manifestFile.manifest.version
    requires Records(s.manifestFile) == s.manifestFile.manifest.checksums
    requires Records(s'.manifestFile) == s'.manifestFile.manifest.checksums
    requires forall p :: SlotOf(s', p) == SlotOf(s, p)
    ensures s' == s
  {
    hide SanitizedChecksums;
    forall p ensures Lookup(s'.disk, p) == Lookup(s.disk, p)
             ensures Lookup(Records(s'.manifestFile), p) == Lookup(Records(s.manifestFile), p) {
      assert SlotOf(s', p) == SlotOf(s, p);
    }
    SameLookupsSameMap(s.disk, s'.disk);
    SameLookupsSameMap(Records(s.manifestFile), Records(s'.manifestFile));
  }

  lemma {:induction false} SameLookupsSameMap<V>(m: map<string, V>, m': map<string, V>)
    requires forall p :: Lookup(m', p) == Lookup(m, p)
    ensures m == m'
  {
    forall p ensures p in m <==> p in m' ensures p in m ==> p in m' && m[p] == m'[p] {
      assert Lookup(m', p) == Lookup(m, p);
    }
  }

  /** Writing the same bundle again changes neither disk nor manifest. */
  lemma {:induction false} JsonWriteIsIdempotent(sum: Checksum, s: State, bundle: Bundle, s': State, s'': State)
    requires JsonDone(sum, s, bundle, s') && JsonDone(sum, s', bundle, s'')
    ensures s'' == s'
  {
    hide BundleContent, SanitizedChecksums, IsWorkflow, SlotOf;
    forall p ensures SlotOf(s'', p) == SlotOf(s', p) {
      assert SlotOf(s'', p) == JsonSlot(sum, SlotOf(s', p), BundleContent(bundle, p), IsWorkflow(p));
      assert SlotOf(s', p) == JsonSlot(sum, SlotOf(s, p), BundleContent(bundle, p), IsWorkflow(p));
    }
    SameSlotsSameState(s', s'');
  }

  /** A user who puts the recorded bytes back after a skipped write gets later writes again. */
  lemma {:induction false} RevertAllowsUpdate(sum: Checksum, s: State, bundle: Bundle, s': State, path: string,
                                              content: Bytes, bundle': Bundle, s'': State)
    requires Protected(sum, SlotOf(s, path)) && SlotOf(s, path).record == Some(sum(content))
    requires JsonDone(sum, s, bundle, s')
    requires JsonDone(sum, s'.(disk := s'.disk[path := content]), bundle', s'')
    ensures SlotOf(s', path) == SlotOf(s, path)
    ensures BundleContents(bundle', path) != [] ==> Lookup(s''.disk, path) == Some(BundleContents(bundle', path)[0])
    ensures BundleContents(bundle', path) == [] && !IsWorkflow(path) ==> path !in s''.disk
  {
    hide BundleContents, SanitizedChecksums, IsWorkflow;
    var reverted := s'.(disk := s'.disk[path := content]);
    assert SlotOf(s', path) == JsonSlot(sum, SlotOf(s, path), BundleContent(bundle, path), IsWorkflow(path));
    assert SlotOf(s'', path) == JsonSlot(sum, SlotOf(reverted, path), BundleContent(bundle', path), IsWorkflow(path));
  }

  // --------------------------------------------------------------------- archives

  /**
   After an extract, a file the archive was free to write is managed again exactly when
   all its entries but the last have the bytes already on record; otherwise the old
   record is kept beside newer bytes, and the file counts as modified by the user.
   */
  lemma {:induction false} ExtractedFileIsManagedIff(sum: Checksum, s: State, version: string, files: seq<File>,
                                                     s': State, path: string)
    requires ArchiveDone(sum, s, version, files, s')
    requires ContentsFor(files, path) != [] && !Protected(sum, SlotOf(s, path))
    ensures var entries, record := ContentsFor(files, path), SlotOf(s, path).record;
            FileStateOf(sum, SlotOf(s', path)) == MatchesManaged
            <==> record.None? || forall j :: 0 <= j < |entries| - 1 ==> Some(sum(entries[j])) == record
  {
    hide ContentsFor, SanitizedChecksums;
    var entries, record := ContentsFor(files, path), SlotOf(s, path).record;
    assert SlotOf(s', path) == ArchiveSlot(sum, SlotOf(s, path), entries);
    var k := LastWritten(sum, record, entries);
    assert k < |entries| - 1 ==> Some(sum(entries[k])) != record;
  }

  const WORKFLOW_PATH: string := "workflows/w.rhai"

  /** An archive that holds one workflow twice. */
  function RepeatingArchive(meta: Bytes, first: Bytes, second: Bytes): seq<Entry> {
    [Entry(true, |meta|, "bundle.json", meta), Entry(true, |first|, WORKFLOW_PATH, first),
     Entry(true, |second|, WORKFLOW_PATH, second)]
  }

  lemma {:induction false} RepeatingArchiveFiles(meta: Bytes, first: Bytes, second: Bytes)
    ensures ArchiveFiles(RepeatingArchive(meta, first, second))
            == [File(WORKFLOW_PATH, first), File(WORKFLOW_PATH, second)]
    ensures ContentsFor(ArchiveFiles(RepeatingArchive(meta, first, second)), WORKFLOW_PATH) == [first, second]
  {
    hide IsFile, ArchiveFiles, ContentsFor;
    var a, b := Entry(true, |first|, WORKFLOW_PATH, first), Entry(true, |second|, WORKFLOW_PATH, second);
    var m := Entry(true, |meta|, "bundle.json", meta);
    WorkflowEntryIsFile(a);
    WorkflowEntryIsFile(b);
    MetadataIsNoFile(m);
    ArchiveFilesAppend([], m);
    ArchiveFilesAppend([m], a);
    ArchiveFilesAppend([m, a], b);
    NothingIn(WORKFLOW_PATH);
    ContentsForAppend([], File(WORKFLOW_PATH, first), WORKFLOW_PATH);
    ContentsForAppend([File(WORKFLOW_PATH, first)], File(WORKFLOW_PATH, second), WORKFLOW_PATH);
    assert [] + [m] == [m] && [m] + [a] == [m, a] && [m, a] + [b] == [m, a, b] == RepeatingArchive(meta, first, second);
    assert [] + [File(WORKFLOW_PATH, first)] == [File(WORKFLOW_PATH, first)];
    assert [File(WORKFLOW_PATH, first)] + [File(WORKFLOW_PATH, second)]
           == [File(WORKFLOW_PATH, first), File(WORKFLOW_PATH, second)];
    assert [] + [first] == [first] && [first] + [second] == [first, second];
  }

  lemma {:induction false} NothingIn(path: string)
    ensures ContentsFor([], path) == [] && ArchiveFiles([]) == []
  {}

  lemma {:induction false} WorkflowEntryIsFile(e: Entry)
    requires Counts(e) && e.path == WORKFLOW_PATH
    ensures IsFile(e) && MapArchivePathToCachePath(ArchivePathOf(e.path)) == Some(WORKFLOW_PATH)
  {
    hide IsBundleJson, MapArchivePathToCachePath, ArchivePathOf, SanitizeRelativePath;
    WorkflowPathAccepted();
    StaysInPlace(WORKFLOW_PATH);
    assert WORKFLOW_PATH[0] == 'w';
  }

  lemma {:induction false} WorkflowPathAccepted()
    ensures SanitizeRelativePath(WORKFLOW_PATH) == Some(WORKFLOW_PATH) && IsWorkflow(WORKFLOW_PATH)
  {
    hide SanitizeRelativePath;
    BuiltPathIsAccepted(Workflow, "w");
    assert RelativePathFor(Workflow, "w") == WORKFLOW_PATH;
  }

  lemma {:induction false} StaysInPlace(path: string)
    requires SanitizeRelativePath(path) == Some(path) && IsWorkflow(path)
    ensures ArchivePathOf(path) == path && !IsBundleJson(path) && MapArchivePathToCachePath(path) == Some(path)
  {
    hide SanitizeRelativePath;
    assert path[0] == "workflows/"[0] == 'w' && "./"[0] == '.' && "bundle.json"[0] == 'b' && "subagents/"[0] == 's';
  }

  lemma {:induction false} MetadataIsNoFile(e: Entry)
    requires Counts(e) && e.path == "bundle.json"
    ensures IsMetadata(e) && !IsFile(e)
  {
    assert e.path[0] != '.';
  }

  lemma {:induction false} ArchiveFilesAppend(entries: seq<Entry>, e: Entry)
    ensures ArchiveFiles(entries + [e])
         == ArchiveFiles(entries)
            + if IsFile(e) then [FileOf(e)] else []
  {
    hide MapArchivePathToCachePath, ArchivePathOf;
    assert (entries + [e])[..|entries|] == entries;
  }

  /** Such an archive is accepted whenever its contents are within the entry limit and it has a version. */
  lemma {:induction false} RepeatingArchiveIsAccepted(parse: ParseVersion, meta: Bytes, first: Bytes, second: Bytes)
    requires parse(meta).Some? && |meta| <= ARCHIVE_MAX_ENTRY_SIZE
    requires |first| <= ARCHIVE_MAX_ENTRY_SIZE && |second| <= ARCHIVE_MAX_ENTRY_SIZE
    ensures Acceptable(parse, RepeatingArchive(meta, first, second))
    ensures VersionOf(parse, RepeatingArchive(meta, first, second)) == parse(meta).value
  {
    hide IsFile, IsBundleJson, ArchivePathOf, IsMetadata, MapArchivePathToCachePath, Acceptable, VersionOf;
    var a, b := Entry(true, |first|, WORKFLOW_PATH, first), Entry(true, |second|, WORKFLOW_PATH, second);
    var m := Entry(true, |meta|, "bundle.json", meta);
    WorkflowEntryIsFile(a);
    WorkflowEntryIsFile(b);
    MetadataIsNoFile(m);
    MetadataThenTwoFiles(parse, [m, a, b]);
  }

  lemma {:induction false} MetadataThenTwoFiles(parse: ParseVersion, entries: seq<Entry>)
    requires |entries| == 3 && IsMetadata(entries[0]) && IsFile(entries[1]) && IsFile(entries[2])
    requires forall e :: e in entries ==> e.size <= ARCHIVE_MAX_ENTRY_SIZE
    requires parse(entries[0].content).Some?
    ensures Acceptable(parse, entries) && VersionOf(parse, entries) == parse(entries[0].content).value
  {
    hide IsBundleJson, ArchivePathOf, MapArchivePathToCachePath, Acceptable, VersionOf, EntryCount, TotalSize,
         ArchiveFiles;
    NothingRead(parse, _ => "", State(map[], Missing), entries);
    assert entries[0] in entries && entries[1] in entries && entries[2] in entries;
    OneMoreEntry(parse, entries, 0);
    OneMoreEntry(parse, entries, 1);
    OneMoreEntry(parse, entries, 2);
    assert entries[..3] == entries;
  }

  /** An archive of one workflow and then, perhaps, an entry over the limit; it has no version. */
  function UnfinishedArchive(content: Bytes, oversize: bool): seq<Entry> {
    [Entry(true, |content|, WORKFLOW_PATH, content)]
    + if oversize then [Entry(true, ARCHIVE_MAX_ENTRY_SIZE + 1, "large", [])] else []
  }

  /** Both ways of refusing an archive after its first file is in: for want of a version, and at a later entry. */
  lemma {:induction false} RefusedAfterAFile(parse: ParseVersion, content: Bytes)
    requires |content| <= ARCHIVE_MAX_ENTRY_SIZE
    ensures var archive := UnfinishedArchive(content, false);
            && Acceptable(parse, archive) && VersionOf(parse, archive) == ""
            && ContentsFor(ArchiveFiles(archive), WORKFLOW_PATH) == [content]
    ensures var archive := UnfinishedArchive(content, true);
            StopsAt(parse, archive, 1) && ContentsFor(ArchiveFiles(archive[..1]), WORKFLOW_PATH) == [content]
  {
    var short, long := UnfinishedArchive(content, false), UnfinishedArchive(content, true);
    WorkflowEntryIsFile(short[0]);
    hide IsFile, IsBundleJson, ArchivePathOf, MapArchivePathToCachePath, Acceptable, VersionOf, EntryCount,
         TotalSize, ArchiveFiles,
         ContentsFor;
    NothingRead(parse, _ => "", State(map[], Missing), short);
    OneMoreEntry(parse, short, 0);
    assert short[..0] == [] && short[..1] == short == long[..1] && long[..2] == long;
    OneMoreEntry(parse, long, 1);
    NothingIn(WORKFLOW_PATH);
    var file := File(WORKFLOW_PATH, content);
    assert [] + [file] == [file] && [] + [content] == [content];
    ContentsForAppend([], file, WORKFLOW_PATH);
  }

  /**
   Extracting an archive with two different entries for one managed file, whose first is
   an update, leaves the update under the old record: the file counts as modified.
   */
  lemma {:induction false} RepeatedEntryLosesManagement(sum: Checksum, parse: ParseVersion, s: State, meta: Bytes,
                                                        first: Bytes, second: Bytes, s': State)
    ensures var archive, slot := RepeatingArchive(meta, first, second), SlotOf(s, WORKFLOW_PATH);
            && FileStateOf(sum, slot) == MatchesManaged && slot.record != Some(sum(first))
            && ArchiveDone(sum, s, VersionOf(parse, archive), ArchiveFiles(archive), s')
            ==> Protected(sum, SlotOf(s', WORKFLOW_PATH)) && SlotOf(s', WORKFLOW_PATH) == Slot(Some(first), slot.record)
  {
    hide ArchiveFiles, ContentsFor, VersionOf, RepeatingArchive, SanitizedChecksums;
    RepeatingArchiveFiles(meta, first, second);
    TwoEntriesLoseManagement(sum, s, VersionOf(parse, RepeatingArchive(meta, first, second)),
                             ArchiveFiles(RepeatingArchive(meta, first, second)), s', WORKFLOW_PATH, first, second);
  }

  lemma {:induction false} TwoEntriesLoseManagement(
        sum: Checksum, s: State, version: string, files: seq<File>, s': State,
                                                    path: string, first: Bytes, second: Bytes)
    requires ContentsFor(files, path) == [first, second]
    ensures FileStateOf(sum, SlotOf(s, path)) == MatchesManaged && SlotOf(s, path).record != Some(sum(first))
            && ArchiveDone(sum, s, version, files, s')
            ==> Protected(sum, SlotOf(s', path)) && SlotOf(s', path) == Slot(Some(first), SlotOf(s, path).record)
  {
    hide ContentsFor, SanitizedChecksums;
    assert LastWritten(sum, SlotOf(s, path).record, [first, second]) == 0
        || SlotOf(s, path).record == Some(sum(first));
    if ArchiveDone(sum, s, version, files, s') {
      assert SlotOf(s', path) == ArchiveSlot(sum, SlotOf(s, path), ContentsFor(files, path));
    }
  }

  /** When extracting the same archive again changes nothing at a path, from what was there before either extract. */
  lemma {:induction false} ExtractAgainUnchangedIff(sum: Checksum, slot: Slot, entries: seq<Bytes>)
    ensures var once, n := ArchiveSlot(sum, slot, entries), |entries|;
            ArchiveSlot(sum, once, entries) == once
            <==> || Protected(sum, slot) || n == 0
                 || (if slot.record.None?
                     then && entries[n - 1] == entries[0]
                          && forall j :: 0 <= j < n - 1 ==> sum(entries[j]) == sum(entries[0])
                     else n == 1 || Some(sum(entries[n - 1])) == slot.record
                          || exists j :: 0 <= j < n - 1 && Some(sum(entries[j])) != slot.record)
  {
    var once := ArchiveSlot(sum, slot, entries);
    if !Protected(sum, slot) && entries != [] {
      var first := LastWritten(sum, slot.record, entries);
      var again := LastWritten(sum, once.record, entries);
      assert first < |entries| - 1 ==> Some(sum(entries[first])) != slot.record;
      assert again < |entries| - 1 ==> Some(sum(entries[again])) != once.record;
    }
  }

  /** Without repeated paths, extracting the same archive again changes neither disk nor manifest. */
  lemma {:induction false} ExtractIsIdempotentWithoutRepeats(
      sum: Checksum, s: State, version: string, files: seq<File>, s': State, s'': State)
    requires ArchiveDone(sum, s, version, files, s') && ArchiveDone(sum, s', version, files, s'')
    requires forall p :: |ContentsFor(files, p)| <= 1
    ensures s'' == s'
  {
    hide ContentsFor, SanitizedChecksums, SlotOf;
    forall p ensures SlotOf(s'', p) == SlotOf(s', p) {
      var entries := ContentsFor(files, p);
      assert SlotOf(s', p) == ArchiveSlot(sum, SlotOf(s, p), entries);
      assert SlotOf(s'', p) == ArchiveSlot(sum, SlotOf(s', p), entries);
    }
    SameSlotsSameState(s', s'');
  }

  /**
   An archive without a version bails after its files are in. From then on, until the
   user steps in, no write or extract replaces such a file, unless its new bytes are
   the ones already on record.
   */
  lemma {:induction false} UnversionedArchiveFreezes(sum: Checksum, parse: ParseVersion, s: State, files: seq<File>,
                                                     trace: seq<State>, events: seq<Event>, path: string, j: nat)
    requires IsRun(sum, parse, trace, events) && j < |trace| && ArchiveUnversioned(sum, s, files, trace[0])
    requires ContentsFor(files, path) != [] && !Protected(sum, SlotOf(s, path))
    requires forall k :: 0 <= k < j ==> !TouchedByUser(events[k], path)
    ensures var entries, record := ContentsFor(files, path), SlotOf(s, path).record;
            var written := entries[LastWritten(sum, record, entries)];
            && Lookup(trace[0].disk, path) == Some(written)
            && (Protected(sum, SlotOf(trace[0], path)) <==> record != Some(sum(written)))
            && (record != Some(sum(written)) ==> Lookup(trace[j].disk, path) == Some(written))
  {
    hide ContentsFor, SanitizedChecksums, IsRun;
    var entries, record := ContentsFor(files, path), SlotOf(s, path).record;
    assert Lookup(trace[0].disk, path) == ArchiveSlot(sum, SlotOf(s, path), entries).content;
    if Protected(sum, SlotOf(trace[0], path)) {
      ProtectedStaysUntouched(sum, parse, trace, events, path, 0, j);
    }
  }

  /**
   An archive refused at entry `k`, for its limits or for what cannot be read, leaves the
   files before that entry, which freeze in the same way.
   */
  lemma {:induction false} RefusedArchiveFreezes(
        sum: Checksum, parse: ParseVersion, s: State, entries: seq<Entry>, k: nat,
                                                 trace: seq<State>, events: seq<Event>, path: string, j: nat)
    requires IsRun(sum, parse, trace, events) && j < |trace|
    requires StopsAt(parse, entries, k) && ArchiveUnversioned(sum, s, ArchiveFiles(entries[..k]), trace[0])
             && !Protected(sum, SlotOf(s, path))
    requires forall n :: 0 <= n < j ==> !TouchedByUser(events[n], path)
    ensures var contents, record := ContentsFor(ArchiveFiles(entries[..k]), path), SlotOf(s, path).record;
            if contents == [] then SlotOf(trace[0], path) == SlotOf(s, path)
            else var written := contents[LastWritten(sum, record, contents)];
                 && Lookup(trace[0].disk, path) == Some(written)
                 && (Protected(sum, SlotOf(trace[0], path)) <==> record != Some(sum(written)))
                 && (record != Some(sum(written)) ==> Lookup(trace[j].disk, path) == Some(written))
  {
    hide ContentsFor, SanitizedChecksums, IsRun, ArchiveFiles, Acceptable;
    var files := ArchiveFiles(entries[..k]);
    if ContentsFor(files, path) != [] {
      UnversionedArchiveFreezes(sum, parse, s, files, trace, events, path, j);
    } else {
      assert Lookup(trace[0].disk, path) == Lookup(s.disk, path);
    }
  }
}
