/**
 * `download_drive_file` and `download_all_for_course` of the command-line
 * downloader.  The seen-set `downloaded_ids` is an object the loop updates
 * in place, the local disk is a map from paths to file contents, and the
 * requests issued to Drive are recorded in a ghost log.
 */
module CliDownload {
  import opened Wrappers
  import opened GoogleApi
  import opened Media
  import opened FileNames
  import CliListing

  /** A local path as its segments: `base_dir / course / name`. */
  type Path = seq<string>

  /** The Python set `downloaded_ids`, shared by reference with the caller. */
  class IdSet {
    var elements: set<string>

    constructor (initial: set<string>)
      ensures elements == initial
    {
      elements := initial;
    }
  }

  /** The files on the local disk (directories are not modelled). */
  class Disk {
    var files: map<Path, seq<byte>>

    constructor (initial: map<Path, seq<byte>>)
      ensures files == initial
    {
      files := initial;
    }
  }

  // ----------------------------------------------------- download_drive_file

  /** `export_media` with the table's export type for a native type,
      otherwise `get_media`. */
  function MediaRequestFor(fileId: string, mimeType: Option<string>): (r: MediaRequest)
    ensures r.fileId == fileId
    ensures IsDocType(mimeType) <==> r.ExportMedia?
    ensures r.ExportMedia? ==> r.mimeType == GoogleDocTypes[mimeType.value].exportMime
  {
    if IsDocType(mimeType) then ExportMedia(fileId, GoogleDocTypes[mimeType.value].exportMime)
    else GetMedia(fileId)
  }

  /** The disk afterwards, the Drive requests issued, and the failure. */
  datatype FileWrite = FileWrite(files: map<Path, seq<byte>>, calls: seq<DriveCall>, failure: Option<Error>)

  /** What `download_drive_file` does: in a dry run no file is written (the
      parent directories are still created, and are not modelled); otherwise it
      opens `dest` for writing (creating or truncating it) and writes the
      drained chunks, so a failed transfer leaves the part written so far. */
  function WriteFile(drive: Drive, fileId: string, dest: Path, mimeType: Option<string>, dryRun: bool,
                     files: map<Path, seq<byte>>): FileWrite
  {
    if dryRun then FileWrite(files, [], None)
    else
      var request := MediaRequestFor(fileId, mimeType);
      var drained := Drain(ChunksFor(drive, request));
      FileWrite(files[dest := drained.data], [Download(request)], if drained.complete then None else Some(HttpError))
  }

  method DownloadDriveFile(drive: Drive, fileId: string, dest: Path, mimeType: Option<string>, dryRun: bool, disk: Disk)
    returns (failure: Option<Error>, ghost calls: seq<DriveCall>)
    modifies disk
    ensures FileWrite(disk.files, calls, failure) == WriteFile(drive, fileId, dest, mimeType, dryRun, old(disk.files))
  {
    // dest_path.parent.mkdir(...): directories are not modelled
    if dryRun {
      return None, [];
    }
    // export_media under the table's mime type, or get_media
    var request := MediaRequestFor(fileId, mimeType);
    calls := [Download(request)];
    var complete := WriteChunks(ChunksFor(drive, request), dest, disk);
    return if complete then None else Some(HttpError), calls;
  }

  /** `io.FileIO(dest_path, "wb")` creates or truncates the file, then
      `while not done: status, done = downloader.next_chunk()` appends every
      chunk in order, up to the first `done` one; running out of chunks
      first is a failure that leaves the part written. */
  method WriteChunks(chunks: seq<Chunk>, dest: Path, disk: Disk) returns (complete: bool)
    modifies disk
    ensures complete == Drain(chunks).complete
    ensures disk.files == old(disk.files)[dest := Drain(chunks).data]
  {
    disk.files := disk.files[dest := []];
    var done := false;
    var k := 0;
    while !done
      invariant 0 <= k <= |chunks|
      invariant disk.files == old(disk.files)[dest := Joined(chunks[..k])]
      invariant forall j | 0 <= j < (if done then k - 1 else k) :: !chunks[j].done
      invariant done ==> 0 < k && chunks[k - 1].done
      decreases |chunks| - k
    {
      if k == |chunks| {
        DrainStopsAtFirstDone(chunks, k);
        assert chunks[..k] == chunks;
        return false;
      }
      var chunk := chunks[k];
      disk.files := disk.files[dest := disk.files[dest] + chunk.data];
      assert chunks[..k + 1][..k] == chunks[..k];
      done := chunk.done;
      k := k + 1;
    }
    DrainStopsAtFirstDone(chunks, k - 1);
    return true;
  }

  // -------------------------------------------------- download_all_for_course

  /** `meta.get("name") or name_hint or file_id` */
  function DisplayName(meta: Metadata, hint: string, fileId: string): string {
    if Truthy(meta.name) then meta.name.value else if hint != "" then hint else fileId
  }

  /** `course_dir / ensure_extension(safe_filename(<display name>), mime_type)`:
      one segment below the course directory, of 1 to 85 characters. */
  function Destination(courseDir: Path, meta: Metadata, hint: string, fileId: string): (p: Path)
    ensures |p| == |courseDir| + 1 && p[..|courseDir|] == courseDir
    ensures 1 <= |p[|courseDir|]| <= MaxNameLength + 5
  {
    var safe := SafeFilename(DisplayName(meta, hint, fileId));
    EnsureExtensionSpec(safe, meta.mimeType);
    courseDir + [EnsureExtension(safe, meta.mimeType)]
  }

  /** What one run has changed: the seen-set, the disk, the Drive log. */
  datatype RunState = RunState(downloaded: set<string>, files: map<Path, seq<byte>>, calls: seq<DriveCall>)

  /** The state so far, and the exception that stopped the loop, if any. */
  datatype Progress = Progress(state: RunState, failure: Option<Error>)

  /** One turn of `for file_id, name_hint in files`. */
  function Step(drive: Drive, courseDir: Path, dryRun: bool, s: RunState, a: Attachment): Progress {
    if a.fileId in s.downloaded then Progress(s, None)
    else
      var calls := s.calls + [GetMetadata(a.fileId)];
      if a.fileId !in drive.metadata then Progress(s.(calls := calls), Some(HttpError))
      else
        var meta := drive.metadata[a.fileId];
        var dest := Destination(courseDir, meta, a.hint, a.fileId);
        if dest in s.files then Progress(RunState(s.downloaded + {a.fileId}, s.files, calls), None)
        else
          var w := WriteFile(drive, a.fileId, dest, meta.mimeType, dryRun, s.files);
          if w.failure.Some? then Progress(RunState(s.downloaded, w.files, calls + w.calls), w.failure)
          else Progress(RunState(s.downloaded + {a.fileId}, w.files, calls + w.calls), None)
  }

  /** The loop over the listed pairs, stopping at the first exception. */
  function Run(drive: Drive, courseDir: Path, dryRun: bool, s: RunState, atts: seq<Attachment>): Progress {
    if atts == [] then Progress(s, None)
    else
      var p := Run(drive, courseDir, dryRun, s, atts[..|atts| - 1]);
      if p.failure.Some? then p else Step(drive, courseDir, dryRun, p.state, atts[|atts| - 1])
  }

  /** Without an earlier exception, pair `i` is processed after the pairs
      before it. */
  lemma RunSnoc(drive: Drive, courseDir: Path, dryRun: bool, s: RunState, atts: seq<Attachment>, i: nat)
    requires i < |atts|
    requires Run(drive, courseDir, dryRun, s, atts[..i]).failure.None?
    ensures Run(drive, courseDir, dryRun, s, atts[..i + 1]) ==
      Step(drive, courseDir, dryRun, Run(drive, courseDir, dryRun, s, atts[..i]).state, atts[i])
  {
    assert atts[..i + 1][..i] == atts[..i];
  }

  /** An exception ends the loop: nothing after it is processed. */
  lemma {:induction false} RunStopsAtFailure(drive: Drive, courseDir: Path, dryRun: bool, s: RunState,
                                             atts: seq<Attachment>, n: nat)
    requires n <= |atts|
    requires Run(drive, courseDir, dryRun, s, atts[..n]).failure.Some?
    ensures Run(drive, courseDir, dryRun, s, atts) == Run(drive, courseDir, dryRun, s, atts[..n])
    decreases |atts|
  {
    if n < |atts| {
      var init := atts[..|atts| - 1];
      assert init[..n] == atts[..n];
      RunStopsAtFailure(drive, courseDir, dryRun, s, init, n);
    } else {
      assert atts[..n] == atts;
    }
  }

  /** `str(course.get('id'))` */
  function IdText(id: Option<string>): string {
    if id.Some? then id.value else "None"
  }

  /** `course_dir = base_dir / safe_filename(course.get("name", f"course_{course.get('id')}"))` */
  function CourseDir(baseDir: Path, course: Course): Path {
    baseDir + [SafeFilename(course.name.GetOr("course_" + IdText(course.id)))]
  }

  /** What `download_all_for_course` does: `course["id"]` raises when the
      id is absent; a failed listing raises before any download. */
  function CourseRun(classroom: Classroom, drive: Drive, course: Course, baseDir: Path, dryRun: bool, s: RunState): Progress {
    if course.id.None? then Progress(s, Some(KeyError("id")))
    else match CliListing.CourseFiles(classroom, course.id.value)
      case Err(e) => Progress(s, Some(e))
      case Ok(files) => Run(drive, CourseDir(baseDir, course), dryRun, s, files)
  }

  method DownloadAllForCourse(classroom: Classroom, drive: Drive, course: Course, baseDir: Path,
                              downloadedIds: IdSet, disk: Disk, dryRun: bool)
    returns (failure: Option<Error>, ghost calls: seq<DriveCall>)
    modifies downloadedIds, disk
    ensures Progress(RunState(downloadedIds.elements, disk.files, calls), failure) ==
      CourseRun(classroom, drive, course, baseDir, dryRun, RunState(old(downloadedIds.elements), old(disk.files), []))
  {
    calls := [];
    var courseDir := CourseDir(baseDir, course);
    if course.id.None? {
      return Some(KeyError("id")), calls;
    }
    var listed := CliListing.ListCourseFiles(classroom, course.id.value);
    if listed.Err? {
      return Some(listed.error), calls;
    }
    var files := listed.value;
    ghost var s0 := RunState(old(downloadedIds.elements), old(disk.files), []);
    for i := 0 to |files|
      invariant Run(drive, courseDir, dryRun, s0, files[..i]) ==
        Progress(RunState(downloadedIds.elements, disk.files, calls), None)
    {
      RunSnoc(drive, courseDir, dryRun, s0, files, i);
      var fileFailure;
      ghost var fileCalls;
      fileFailure, fileCalls := DownloadOne(drive, courseDir, dryRun, files[i], downloadedIds, disk, calls);
      calls := fileCalls;
      if fileFailure.Some? {
        RunStopsAtFailure(drive, courseDir, dryRun, s0, files, i + 1);
        return fileFailure, calls;
      }
    }
    assert files[..|files|] == files;
    return None, calls;
  }

  /** The body of the loop of `download_all_for_course` for one pair. */
  method DownloadOne(drive: Drive, courseDir: Path, dryRun: bool, a: Attachment,
                     downloadedIds: IdSet, disk: Disk, ghost callsBefore: seq<DriveCall>)
    returns (failure: Option<Error>, ghost calls: seq<DriveCall>)
    modifies downloadedIds, disk
    ensures Progress(RunState(downloadedIds.elements, disk.files, calls), failure) ==
      Step(drive, courseDir, dryRun, RunState(old(downloadedIds.elements), old(disk.files), callsBefore), a)
  {
    calls := callsBefore;
    var fileId := a.fileId;
    var nameHint := a.hint;
    if fileId in downloadedIds.elements {
      // a seen id: no request, nothing changes
      return None, calls;
    }
    calls := calls + [GetMetadata(fileId)];
    if fileId !in drive.metadata {
      return Some(HttpError), calls;
    }
    var meta := drive.metadata[fileId];
    var fname := if Truthy(meta.name) then meta.name.value else if nameHint != "" then nameHint else fileId;
    var mimeType := meta.mimeType;
    fname := SafeFilename(fname);
    fname := EnsureExtension(fname, mimeType);
    var destPath := courseDir + [fname];
    assert destPath == Destination(courseDir, meta, nameHint, fileId);
    if destPath in disk.files {
      // the destination exists: mark the id without a content request
      downloadedIds.elements := downloadedIds.elements + {fileId};
      return None, calls;
    }
    ghost var downloadCalls;
    failure, downloadCalls := DownloadDriveFile(drive, fileId, destPath, mimeType, dryRun, disk);
    calls := calls + downloadCalls;
    if failure.None? {
      downloadedIds.elements := downloadedIds.elements + {fileId};
    }
  }

  // ------------------------------------------------------------- properties

  /** The ids of the metadata requests in a log, in order. */
  function MetadataIds(calls: seq<DriveCall>): seq<string> {
    if calls == [] then []
    else MetadataIds(calls[..|calls| - 1]) + (if calls[|calls| - 1].GetMetadata? then [calls[|calls| - 1].fileId] else [])
  }

  /** The file ids of the media requests in a log, in order. */
  function DownloadIds(calls: seq<DriveCall>): seq<string> {
    if calls == [] then []
    else DownloadIds(calls[..|calls| - 1]) + (if calls[|calls| - 1].Download? then [calls[|calls| - 1].request.fileId] else [])
  }

  predicate NoDuplicates(xs: seq<string>) {
    forall i, j | 0 <= i < j < |xs| :: xs[i] != xs[j]
  }

  lemma NoDuplicatesSnoc(xs: seq<string>, x: string)
    requires NoDuplicates(xs) && x !in xs
    ensures NoDuplicates(xs + [x])
  {
    forall i, j | 0 <= i < j < |xs + [x]|
      ensures (xs + [x])[i] != (xs + [x])[j]
    {
      if j == |xs| {
        assert (xs + [x])[i] == xs[i];
      } else {
        assert (xs + [x])[i] == xs[i] && (xs + [x])[j] == xs[j];
      }
    }
  }

  lemma LogSnoc(calls: seq<DriveCall>, c: DriveCall)
    ensures MetadataIds(calls + [c]) == MetadataIds(calls) + (if c.GetMetadata? then [c.fileId] else [])
    ensures DownloadIds(calls + [c]) == DownloadIds(calls) + (if c.Download? then [c.request.fileId] else [])
  {
    assert (calls + [c])[..|calls|] == calls;
  }

  /** One turn either skips an id already seen, changing nothing, or the id
      joins the seen-set exactly when the turn raises nothing. */
  lemma StepSeenSet(drive: Drive, courseDir: Path, dryRun: bool, s: RunState, a: Attachment)
    ensures var q := Step(drive, courseDir, dryRun, s, a);
      (a.fileId in s.downloaded ==> q == Progress(s, None)) &&
      (q.failure.None? ==> q.state.downloaded == s.downloaded + {a.fileId}) &&
      (q.failure.Some? ==> q.state.downloaded == s.downloaded)
  {
  }

  /** The requests of a turn for an unseen id: its metadata, then, outside
      a dry run, at most one content request for the same file. */
  lemma StepCalls(drive: Drive, courseDir: Path, dryRun: bool, s: RunState, a: Attachment)
    requires a.fileId !in s.downloaded
    ensures var q := Step(drive, courseDir, dryRun, s, a);
      var withMeta := s.calls + [GetMetadata(a.fileId)];
      q.state.calls == withMeta ||
      (!dryRun && |q.state.calls| == |withMeta| + 1 && q.state.calls[..|withMeta|] == withMeta &&
       q.state.calls[|withMeta|].Download? && q.state.calls[|withMeta|].request.fileId == a.fileId)
  {
    var q := Step(drive, courseDir, dryRun, s, a);
    var withMeta := s.calls + [GetMetadata(a.fileId)];
    if a.fileId in drive.metadata {
      var meta := drive.metadata[a.fileId];
      var dest := Destination(courseDir, meta, a.hint, a.fileId);
      if dest !in s.files {
        var w := WriteFile(drive, a.fileId, dest, meta.mimeType, dryRun, s.files);
        if dryRun {
          assert w.calls == [];
          assert q.state.calls == withMeta + [];
        } else {
          var request := MediaRequestFor(a.fileId, meta.mimeType);
          assert q.state.calls == withMeta + [Download(request)];
        }
      }
    }
  }

  /** The skip rule, first half: when the destination of an unseen id
      already exists, the turn requests the metadata only, marks the id and
      leaves the disk as it was. */
  lemma StepSkipsExisting(drive: Drive, courseDir: Path, dryRun: bool, s: RunState, a: Attachment)
    requires a.fileId !in s.downloaded && a.fileId in drive.metadata
    requires Destination(courseDir, drive.metadata[a.fileId], a.hint, a.fileId) in s.files
    ensures Step(drive, courseDir, dryRun, s, a) ==
      Progress(RunState(s.downloaded + {a.fileId}, s.files, s.calls + [GetMetadata(a.fileId)]), None)
  {
  }

  /** The skip rule, second half: when the destination of an unseen id is
      free, a dry run only marks the id; otherwise the turn requests the
      file's content, stores the drained bytes at the destination, and marks
      the id exactly when the transfer finished. */
  lemma StepDownloadsWhenFree(drive: Drive, courseDir: Path, dryRun: bool, s: RunState, a: Attachment)
    requires a.fileId !in s.downloaded && a.fileId in drive.metadata
    requires Destination(courseDir, drive.metadata[a.fileId], a.hint, a.fileId) !in s.files
    ensures var meta := drive.metadata[a.fileId];
      var dest := Destination(courseDir, meta, a.hint, a.fileId);
      var request := MediaRequestFor(a.fileId, meta.mimeType);
      var drained := Drain(ChunksFor(drive, request));
      var q := Step(drive, courseDir, dryRun, s, a);
      (dryRun ==> q == Progress(RunState(s.downloaded + {a.fileId}, s.files, s.calls + [GetMetadata(a.fileId)]), None)) &&
      (!dryRun ==>
        q.state.calls == s.calls + [GetMetadata(a.fileId), Download(request)] &&
        q.state.files == s.files[dest := drained.data] &&
        (q.failure.None? <==> drained.complete) &&
        q.state.downloaded == (if drained.complete then s.downloaded + {a.fileId} else s.downloaded))
  {
    if !dryRun {
      var meta := drive.metadata[a.fileId];
      var request := MediaRequestFor(a.fileId, meta.mimeType);
      assert s.calls + [GetMetadata(a.fileId)] + [Download(request)] == s.calls + [GetMetadata(a.fileId), Download(request)];
    }
  }

  /** A turn for an unseen id issues one metadata request for it and at most
      one media request, for the same id; a dry run issues none. */
  lemma StepLog(drive: Drive, courseDir: Path, dryRun: bool, s: RunState, a: Attachment)
    requires a.fileId !in s.downloaded
    ensures var q := Step(drive, courseDir, dryRun, s, a);
      MetadataIds(q.state.calls) == MetadataIds(s.calls) + [a.fileId] &&
      (DownloadIds(q.state.calls) == DownloadIds(s.calls) ||
       (!dryRun && DownloadIds(q.state.calls) == DownloadIds(s.calls) + [a.fileId]))
  {
    StepCalls(drive, courseDir, dryRun, s, a);
    TurnLog(s.calls, Step(drive, courseDir, dryRun, s, a).state.calls, a.fileId, dryRun);
  }

  /** The id lists of a log that grew by one metadata request and at most
      one content request for the same file. */
  lemma TurnLog(before: seq<DriveCall>, after: seq<DriveCall>, fileId: string, dryRun: bool)
    requires var withMeta := before + [GetMetadata(fileId)];
      after == withMeta ||
      (!dryRun && |after| == |withMeta| + 1 && after[..|withMeta|] == withMeta &&
       after[|withMeta|].Download? && after[|withMeta|].request.fileId == fileId)
    ensures MetadataIds(after) == MetadataIds(before) + [fileId]
    ensures DownloadIds(after) == DownloadIds(before) ||
      (!dryRun && DownloadIds(after) == DownloadIds(before) + [fileId])
  {
    var withMeta := before + [GetMetadata(fileId)];
    LogSnoc(before, GetMetadata(fileId));
    if after != withMeta {
      var c := after[|withMeta|];
      assert after == withMeta + [c];
      LogSnoc(withMeta, c);
    }
  }

  /** `path` is where the pair `a` is stored and `content` the bytes drained
      for its media request. */
  predicate StoredFor(drive: Drive, courseDir: Path, a: Attachment, path: Path, content: seq<byte>) {
    a.fileId in drive.metadata &&
    var meta := drive.metadata[a.fileId];
    path == Destination(courseDir, meta, a.hint, a.fileId) &&
    content == Drain(ChunksFor(drive, MediaRequestFor(a.fileId, meta.mimeType))).data
  }

  /** Storing the pair's bytes at a new path keeps every other file. */
  lemma AddStored(drive: Drive, courseDir: Path, a: Attachment, files: map<Path, seq<byte>>, dest: Path, data: seq<byte>)
    requires dest !in files
    requires StoredFor(drive, courseDir, a, dest, data)
    ensures forall path | path in files :: path in files[dest := data] && files[dest := data][path] == files[path]
    ensures forall path | path in files[dest := data] && path !in files :: StoredFor(drive, courseDir, a, path, files[dest := data][path])
  {
  }

  /** One turn keeps every existing file, and the only file it may add is
      the pair's own, at its destination with its drained bytes; a dry run
      adds none. */
  lemma StepDisk(drive: Drive, courseDir: Path, dryRun: bool, s: RunState, a: Attachment)
    ensures var q := Step(drive, courseDir, dryRun, s, a);
      (forall path | path in s.files :: path in q.state.files && q.state.files[path] == s.files[path]) &&
      (forall path | path in q.state.files && path !in s.files :: StoredFor(drive, courseDir, a, path, q.state.files[path])) &&
      (dryRun ==> q.state.files == s.files)
  {
    var files := Step(drive, courseDir, dryRun, s, a).state.files;
    if a.fileId !in s.downloaded && a.fileId in drive.metadata {
      var meta := drive.metadata[a.fileId];
      var dest := Destination(courseDir, meta, a.hint, a.fileId);
      if dest !in s.files && !dryRun {
        var data := Drain(ChunksFor(drive, MediaRequestFor(a.fileId, meta.mimeType))).data;
        assert files == s.files[dest := data] by {
          assert WriteFile(drive, a.fileId, dest, meta.mimeType, dryRun, s.files).files == s.files[dest := data];
        }
        AddStored(drive, courseDir, a, s.files, dest, data);
      } else {
        assert files == s.files;
      }
    } else {
      assert files == s.files;
    }
  }

  /** The ids of the listed pairs. */
  function ListedIds(atts: seq<Attachment>): (r: set<string>)
    ensures r == set a | a in atts :: a.fileId
  {
    if atts == [] then {}
    else
      var init := atts[..|atts| - 1];
      var r := ListedIds(init) + {atts[|atts| - 1].fileId};
      assert atts == init + [atts[|atts| - 1]];
      assert forall id | id in r :: exists a | a in atts :: a.fileId == id;
      r
  }

  /** On normal completion the seen-set is the old one plus every listed id. */
  lemma {:induction false} RunRecordsListedIds(drive: Drive, courseDir: Path, dryRun: bool, s: RunState, atts: seq<Attachment>)
    requires Run(drive, courseDir, dryRun, s, atts).failure.None?
    ensures Run(drive, courseDir, dryRun, s, atts).state.downloaded == s.downloaded + ListedIds(atts)
  {
    if atts != [] {
      var init := atts[..|atts| - 1];
      var last := atts[|atts| - 1];
      var p := Run(drive, courseDir, dryRun, s, init);
      assert p.failure.None?;
      RunRecordsListedIds(drive, courseDir, dryRun, s, init);
      StepSeenSet(drive, courseDir, dryRun, p.state, last);
    }
  }

  /** Metadata is never requested for an id that was already in the
      seen-set, and each id is requested, and downloaded, at most once per
      run, however often it is listed. */
  lemma {:induction false} RunFetchesOnce(drive: Drive, courseDir: Path, dryRun: bool, s: RunState, atts: seq<Attachment>)
    requires s.calls == []
    ensures var p := Run(drive, courseDir, dryRun, s, atts);
      NoDuplicates(MetadataIds(p.state.calls)) &&
      NoDuplicates(DownloadIds(p.state.calls)) &&
      (forall id | id in MetadataIds(p.state.calls) :: id !in s.downloaded) &&
      (forall id | id in DownloadIds(p.state.calls) :: id in MetadataIds(p.state.calls)) &&
      s.downloaded <= p.state.downloaded &&
      (p.failure.None? ==> forall id | id in MetadataIds(p.state.calls) :: id in p.state.downloaded)
  {
    if atts != [] {
      var init := atts[..|atts| - 1];
      var last := atts[|atts| - 1];
      var p := Run(drive, courseDir, dryRun, s, init);
      RunFetchesOnce(drive, courseDir, dryRun, s, init);
      if p.failure.None? {
        var q := Step(drive, courseDir, dryRun, p.state, last);
        StepSeenSet(drive, courseDir, dryRun, p.state, last);
        if last.fileId !in p.state.downloaded {
          StepLog(drive, courseDir, dryRun, p.state, last);
          var metaIds := MetadataIds(p.state.calls);
          var downloadIds := DownloadIds(p.state.calls);
          assert last.fileId !in metaIds;
          assert last.fileId !in downloadIds;
          NoDuplicatesSnoc(metaIds, last.fileId);
          if DownloadIds(q.state.calls) != downloadIds {
            NoDuplicatesSnoc(downloadIds, last.fileId);
          }
        }
      }
    }
  }

  /** A file that existed before the run is never overwritten. */
  lemma {:induction false} RunNeverOverwrites(drive: Drive, courseDir: Path, dryRun: bool, s: RunState, atts: seq<Attachment>)
    ensures var p := Run(drive, courseDir, dryRun, s, atts);
      forall path | path in s.files :: path in p.state.files && p.state.files[path] == s.files[path]
  {
    if atts != [] {
      var init := atts[..|atts| - 1];
      var p := Run(drive, courseDir, dryRun, s, init);
      RunNeverOverwrites(drive, courseDir, dryRun, s, init);
      if p.failure.None? {
        StepDisk(drive, courseDir, dryRun, p.state, atts[|atts| - 1]);
      }
    }
  }

  /** Every file the run creates sits at the destination computed for a
      listed pair and holds the bytes drained for that pair's media request. */
  lemma {:induction false} RunWritesOnlyDestinations(drive: Drive, courseDir: Path, dryRun: bool, s: RunState, atts: seq<Attachment>)
    ensures var p := Run(drive, courseDir, dryRun, s, atts);
      forall path | path in p.state.files && path !in s.files ::
        exists k | 0 <= k < |atts| :: StoredFor(drive, courseDir, atts[k], path, p.state.files[path])
  {
    if atts != [] {
      var init := atts[..|atts| - 1];
      var last := atts[|atts| - 1];
      var p := Run(drive, courseDir, dryRun, s, init);
      RunWritesOnlyDestinations(drive, courseDir, dryRun, s, init);
      if p.failure.None? {
        var q := Step(drive, courseDir, dryRun, p.state, last);
        StepDisk(drive, courseDir, dryRun, p.state, last);
        forall path | path in q.state.files && path !in s.files
          ensures exists k | 0 <= k < |atts| :: StoredFor(drive, courseDir, atts[k], path, q.state.files[path])
        {
          if path in p.state.files {
            var k :| 0 <= k < |init| && StoredFor(drive, courseDir, init[k], path, p.state.files[path]);
            assert atts[k] == init[k];
            assert StoredFor(drive, courseDir, atts[k], path, q.state.files[path]);
          } else {
            assert StoredFor(drive, courseDir, atts[|atts| - 1], path, q.state.files[path]);
          }
        }
      }
    }
  }

  /** A dry run writes nothing and requests no content. */
  lemma {:induction false} RunDryRunKeepsDisk(drive: Drive, courseDir: Path, s: RunState, atts: seq<Attachment>)
    ensures var p := Run(drive, courseDir, true, s, atts);
      p.state.files == s.files && DownloadIds(p.state.calls) == DownloadIds(s.calls)
  {
    if atts != [] {
      var init := atts[..|atts| - 1];
      var last := atts[|atts| - 1];
      var p := Run(drive, courseDir, true, s, init);
      RunDryRunKeepsDisk(drive, courseDir, s, init);
      if p.failure.None? {
        StepDisk(drive, courseDir, true, p.state, last);
        if last.fileId !in p.state.downloaded {
          StepLog(drive, courseDir, true, p.state, last);
        } else {
          StepSeenSet(drive, courseDir, true, p.state, last);
        }
      }
    }
  }
}
