# Google Classroom downloader, modelled in Dafny

The repository has two front ends to the same job. Both list the courses
a user is enrolled in and collect every Google Drive file attached to a
course's assignments (courseWork) and posts (courseWorkMaterials). Then
they fetch those files from Drive, exporting the native Docs, Slides and
Sheets types to PDF, PPTX and XLSX.

- The command-line downloader (`classroom_downloader.py`) writes each file
  below a per-course directory on disk. Names are sanitised with
  `safe_filename` and `ensure_extension`. A set of file ids that were
  already handled suppresses repeat downloads.
- The web application (`app/`) lists the files by rules of its own. It
  keeps a pair whose id is empty, raises `KeyError` on an inner `driveFile`
  without an id, and falls back to the hint "file". It turns the pairs into
  a stream of `(course_id/name, bytes)` entries, fetched into memory. A zip
  streamer then consumes the stream.

This project models the listing, naming and download logic of both front
ends and proves properties of it.

The Classroom and Drive services are values:

- A paginated list call is a sequence of pages (`GoogleApi.Page`). The
  k-th call answers the k-th page. A call past the last page is an HTTP
  error.
- Drive metadata is a map from file id to `Metadata`.
- Media content is a map from request to a sequence of chunks. Each chunk
  carries a `done` flag, as `MediaIoBaseDownload.next_chunk` reports it.
- Python exceptions are an `Error` (`HttpError` or `KeyError(key)`)
  inside a `Result` or a `failure` field. The first exception ends the
  enclosing loop.

Modules:

- `Wrappers`: `Option`.
- `GoogleApi`: the service data, `Error`, `Result`, and the `Chain`
  composition. `Chain` keeps the first error.
- `Text`: ASCII `\w`, `str.isspace`, `lower`, `strip` and slicing.
- `Pagination`: the `while True` / `nextPageToken` loop as a function,
  with its closed form.
- `Media`: the `next_chunk` loop as a function, with its closed form.
- `FileNames`: `safe_filename`, `GOOGLE_DOC_TYPES` and `ensure_extension`.
- `CliListing`: the command-line `list_all_courses` and
  `list_course_files`. These are methods with loops, proved against
  specification functions.
- `CliDownload`: `download_drive_file` and `download_all_for_course`.
  - The id set passed by reference is the class `IdSet`.
  - The file system is the class `Disk`, which maps paths to bytes.
  - The Drive requests issued are a ghost log.
- `AppClassroom` and `AppDrive`: the web application's
  `list_all_courses`, `list_course_files`, `GOOGLE_EXPORTS` and
  `download_file_bytes`. `download_file_bytes` writes into an in-memory
  `BytesIO` class.
- `AppMain`: the `gen()` generator of the download route.
- `Variants`: where the two front ends agree and where they differ.

Sharp edges of the code that the model keeps:

- `safe_filename` replaces a whole run of unsafe characters with one `_`.
- An empty name becomes `"unnamed"` before substitution. A name that
  strips to nothing becomes `"file"`.
- The result is cut to 80 characters after stripping, so it can end in a
  space. `FileNames.SafeFilenameNotIdempotent` exhibits this.
- The web path does not sanitise names. It appends the export extension
  even when the name already has it (`AppDrive.FetchFileAppendsTwice`).
- Neither front end isolates a failing file. On the command line an
  exception leaves `download_all_for_course`, and `main` has no handler
  (classroom_downloader.py:331-343). So it ends the whole run before
  `save_index`, and the ids the run added are not saved. The model covers
  one course's run up to that exception. On the web an exception ends the
  whole generator.
- `safe_filename` keeps the names "." and ".."
  (`FileNames.SafeFilenameKeepsDotNames`).

## Model

| member | source | states |
|---|---|---|
| FileNames.ReplaceUnsafe | classroom_downloader.py:67 | the substitution's output is no longer than its input and holds only characters of `[\w.\- ]` |
| FileNames.ReplaceUnsafeKeepsSafe | classroom_downloader.py:67 | text made only of safe characters passes through unchanged |
| FileNames.ReplaceUnsafeCollapsesRun | classroom_downloader.py:67 | a maximal run of unsafe characters after safe text becomes exactly one `_` |
| FileNames.IsSafeChar | classroom_downloader.py:67 | reference definition of the character class `[\w.\- ]` the substitution keeps; `SafeFilenameTruncates` states that every result character is in it |
| FileNames.SafeFilename | classroom_downloader.py:60-72 | the result is 1 to 80 characters long, only safe characters, and never starts with a space |
| FileNames.Shorten | classroom_downloader.py:69-71 | stripping, cutting to 80 characters and the "file" fallback give 1 to 80 safe characters with no leading space |
| FileNames.Named | classroom_downloader.py:64-65 | the name that is substituted is never empty; `SafeFilenameOfEmpty` states that "" becomes "unnamed" |
| FileNames.ShortenTruncates | classroom_downloader.py:69-71 | when the stripped text is non-empty the result is its first 80 characters; when it is empty the result is "file" |
| FileNames.SafeFilenameTruncates | classroom_downloader.py:60-72 | `safe_filename` is the stripped substitution cut to 80 characters, and "file" exactly when the stripped substitution is empty |
| FileNames.SafeFilenameOfLongName | classroom_downloader.py:69-71 | a name of at least 80 characters once substituted and stripped is cut to exactly its first 80 |
| FileNames.SafeFilenameKeepsDotNames | classroom_downloader.py:60-72 | "." and ".." come back unchanged |
| FileNames.SafeFilenameOfEmpty | classroom_downloader.py:64-65 | the empty name becomes "unnamed" |
| FileNames.SafeFilenameOfSpaces | classroom_downloader.py:69-71 | a name of spaces only becomes "file" |
| FileNames.SafeFilenameKeepsCleanNames | classroom_downloader.py:66-72 | a safe name of at most 80 characters with no space at either end is returned as is |
| FileNames.SafeFilenameNotIdempotent | classroom_downloader.py:69 | some name changes when sanitised a second time, because truncation follows stripping |
| FileNames.DocTypeExtensionsAreLowercase | classroom_downloader.py:177-190 | every extension in the export table is already lower case |
| FileNames.IsDocType | classroom_downloader.py:210 | reference definition of `mime_type in GOOGLE_DOC_TYPES` with a possibly absent mime type (also line 233); `MediaRequestFor` and `EnsureExtensionSpec` state the two branches it selects |
| FileNames.EnsureExtensionSpec | classroom_downloader.py:228-237 | for a native type the result ends case-insensitively in the table's extension, which is appended exactly when the lowercased name lacks it; other mime types and none leave the name alone |
| FileNames.EnsureExtension | classroom_downloader.py:228-237 | reference definition of `ensure_extension`; its contract is stated by `EnsureExtensionSpec` and `EnsureExtensionIdempotent` |
| FileNames.EnsureExtensionIdempotent | classroom_downloader.py:228-237 | applying the rule twice equals applying it once |
| Text.Lower | classroom_downloader.py:114 | reference definition of `str.lower()` on ASCII; its contract states that the result has the input's length, holds no letter `A`-`Z`, and keeps every other character in place |
| Text.LowerAppend | classroom_downloader.py:114 | lowercasing distributes over concatenation, which the course filter and `ensure_extension` (line 235) rely on |
| Text.Strip | classroom_downloader.py:69 | the result is no longer than the input, has no whitespace at either end, is empty exactly when the input is all whitespace, and is the input itself when the input has no whitespace at its ends; `StripIsSlice` places it in the input |
| Text.Take | classroom_downloader.py:69 | the slice `[:n]` is a prefix of the input of length exactly min(n, len) |
| Text.Contains | classroom_downloader.py:114 | reference definition of the substring test `needle in hay` (the empty needle occurs everywhere); `CliListing.FilterCoursesSpec` states the filter through it |
| Text.EndsWith | classroom_downloader.py:235 | reference definition of `str.endswith`: the last characters equal the suffix; `FileNames.EnsureExtensionSpec` states the extension rule through it |
| Text.StripIsSlice | classroom_downloader.py:69 | the stripped text equals the contiguous slice of the input that starts where the leading whitespace ends |
| Text.StripCutsOnlyWhitespace | classroom_downloader.py:69 | everything before and after that slice is whitespace |
| Text.IsWordChar | classroom_downloader.py:67 | reference definition of `\w` on ASCII: letters, digits and `_`; part of `FileNames.IsSafeChar` |
| Text.IsWhitespace | classroom_downloader.py:69 | reference definition of `str.isspace` on ASCII, used by `strip`; `Strip` and `StripCutsOnlyWhitespace` state what is removed in its terms |
| GoogleApi.Truthy | classroom_downloader.py:119 | reference definition of `if not page_token` (also app/classroom.py:11, 30, 44): present and non-empty; `PaginateStopsAtFirstFalsy` states that the loops stop at the first token it rejects |
| GoogleApi.Items | classroom_downloader.py:111 | reference definition of `resp.get("courses", [])` and of the other collection keys: an absent key reads as no items |
| GoogleApi.Materials | classroom_downloader.py:141 | reference definition of `cw.get("materials", [])`: an absent key reads as no materials |
| GoogleApi.DriveFileTruthy | app/classroom.py:27 | reference definition of `if df:` on the inner record: a dict with at least one of its modelled keys; `AppClassroom.MaterialsPairsSpec` states the pairs in its terms |
| GoogleApi.SharedDriveFileTruthy | classroom_downloader.py:143 | reference definition of the `df` test of `if df and "driveFile" in df`; `CliListing.MaterialPairSpec` states the pairs in its terms |
| GoogleApi.Chain | classroom_downloader.py:125-172 | reference definition of two list-producing steps in sequence: the first exception wins, otherwise the two lists are concatenated in order |
| GoogleApi.ChainAssociative | classroom_downloader.py:125-172 | chaining is associative, so a run of steps (pages, records, materials) can be grouped either way |
| GoogleApi.ChainUnits | classroom_downloader.py:125-172 | a step that yields nothing and raises nothing can be dropped on either side |
| Wrappers.Option.GetOr | classroom_downloader.py:250 | reference definition of `dict.get(key, default)`: the value when the key is present, otherwise the default |
| Pagination.PaginateStopsAtFirstFalsy | classroom_downloader.py:107-120 | the page loop reads exactly the pages up to and including the first one without a truthy `nextPageToken` and concatenates their items; without such a page it runs past the end |
| Pagination.Paginate | classroom_downloader.py:107-120 | reference definition of the `nextPageToken` loop: the items read and whether the loop ran past the last page; its closed form is `PaginateStopsAtFirstFalsy` |
| Pagination.PaginateReadsPrefix | classroom_downloader.py:107-120 | while the tokens are truthy, every page read so far contributes its items, in order, to the result |
| Media.DrainStopsAtFirstDone | classroom_downloader.py:221-223 | the chunk loop writes exactly the chunks up to and including the first `done` one, and fails when no chunk is `done` |
| Media.Drain | classroom_downloader.py:221-223 | reference definition of the `next_chunk` loop: the bytes written and whether a `done` chunk came; its closed form is `DrainStopsAtFirstDone` |
| CliListing.FilterCoursesSpec | classroom_downloader.py:112-117 | a course is kept iff the lowercased filter occurs in its lowercased name (missing name = ""); with no truthy filter every course is kept |
| CliListing.FilterCourses | classroom_downloader.py:112-117 | reference definition of the name filter over one list of courses; stated by `FilterCoursesSpec` and `FilterCoursesAppend` |
| CliListing.NameMatches | classroom_downloader.py:113-114 | reference definition of the course filter: no truthy `name_contains`, or its lowercase form occurs in the lowercased name (absent = ""); stated by `FilterCoursesSpec` and `FilterCoursesOne` |
| CliListing.FilterCoursesOne | classroom_downloader.py:112-117 | one course is kept exactly once when it matches and dropped otherwise, so with `FilterCoursesAppend` a course listed twice that matches is kept twice |
| CliListing.AllCourses | classroom_downloader.py:100-122 | reference definition of `list_all_courses`: the filtered courses of the pages read, or the error of the call past the last page; `ListAllCourses` is proved against it |
| CliListing.FilterCoursesAppend | classroom_downloader.py:107-120 | filtering page by page equals filtering the concatenation, so page and course order are kept |
| CliListing.ListAllCourses | classroom_downloader.py:100-122 | the page loop returns the filtered courses of every page read, or the error of the call past the last page |
| CliListing.AppendMatching | classroom_downloader.py:112-117 | the loop over one page appends exactly the courses that pass the filter, in order |
| CliListing.ListCourseFiles | classroom_downloader.py:125-172 | the result is every courseWork pair (hint fallback "Assignment") followed by every courseWorkMaterial pair (fallback "Material"), or the error of a failing list call |
| CliListing.CollectPairs | classroom_downloader.py:134-150 | one page loop appends the pairs of every record read, or fails when it runs past the last page |
| CliListing.AppendRecordPairs | classroom_downloader.py:139-147 | the loop over a page's records appends their pairs, each titled by the record's title or the fallback |
| CliListing.AppendMaterialPairs | classroom_downloader.py:141-147 | the loop over a record's materials appends one pair per qualifying material, in order |
| CliListing.RecordsPairsAppend | classroom_downloader.py:139-147 | the pairs of `a + b` are those of `a` then those of `b` |
| CliListing.MaterialPairSpec | classroom_downloader.py:142-147 | a material yields a pair iff its inner `driveFile` is present with a non-empty id; the hint is the inner title, else the record title |
| CliListing.MaterialPair | classroom_downloader.py:142-147 | reference definition of the pair one material yields; stated by `MaterialPairSpec` |
| CliListing.MaterialsPairs | classroom_downloader.py:141-147 | reference definition of the material loop: the pairs of the qualifying materials, in order; `AppendMaterialPairs` is proved against it and `MaterialsPairsSpec` states it |
| CliListing.RecordPairs | classroom_downloader.py:139-147 | reference definition of one record: its materials' pairs with `record.get("title", fallback)` as the hint fallback; `AppendRecordPairs` is proved against it |
| CliListing.RecordsPairs | classroom_downloader.py:139-147 | reference definition of the record loop: each record's pairs in record order; stated by `RecordsPairsAppend` and `RecordsIdsNonEmpty` |
| CliListing.CourseFiles | classroom_downloader.py:125-172 | reference definition of `list_course_files`; `ListCourseFiles` is proved against it and `CourseFilesIdsNonEmpty` states its ids |
| CliListing.MaterialsPairsSpec | classroom_downloader.py:141-147 | one pair per qualifying material, each with a non-empty id and traced back to a material that carries it |
| CliListing.RecordsIdsNonEmpty | classroom_downloader.py:139-147 | no pair from any record has an empty id |
| CliListing.CourseFilesIdsNonEmpty | classroom_downloader.py:125-172 | every id `list_course_files` returns is non-empty |
| CliDownload.MediaRequestFor | classroom_downloader.py:210-216 | the request is for the given file; it is an export exactly for a native type, under the table's export mime type, and a raw media request otherwise |
| CliDownload.DownloadDriveFile | classroom_downloader.py:193-225 | a dry run leaves the modelled files unchanged (the directories it creates are not modelled) and issues no request; otherwise the destination is created or truncated and receives the drained chunks, one content request is issued, and an unfinished transfer fails, leaving the part written |
| CliDownload.WriteChunks | classroom_downloader.py:218-223 | opening the destination truncates it; the loop then leaves exactly the chunks up to the first `done` one in it, and reports failure when the chunks run out first |
| CliDownload.WriteFile | classroom_downloader.py:193-225 | reference definition of `download_drive_file` on the disk and the Drive log; `DownloadDriveFile` is proved against it |
| CliDownload.Destination | classroom_downloader.py:269-275 | the destination is one segment of 1 to 85 characters directly below the course directory |
| CliDownload.DisplayName | classroom_downloader.py:269 | reference definition of `meta.get("name") or name_hint or file_id` |
| CliDownload.CourseDir | classroom_downloader.py:250-251 | reference definition of the course directory: the base directory plus the sanitised course name, or `course_<id>` |
| CliDownload.IdText | classroom_downloader.py:250 | reference definition of `course.get('id')` inside the f-string: the id, or "None" when absent; used by `CourseDir` |
| CliDownload.DownloadOne | classroom_downloader.py:258-283 | one loop turn: a seen id is skipped; otherwise metadata is requested, an existing destination only marks the id, and a download marks the id only when it succeeds |
| CliDownload.DownloadAllForCourse | classroom_downloader.py:242-283 | the seen-set, the disk and the request log end as the model of the whole course run says, including a missing course id and a failing listing |
| CliDownload.RunStopsAtFailure | classroom_downloader.py:258-283 | after the first exception no later pair is processed |
| CliDownload.Step | classroom_downloader.py:259-283 | reference definition of one loop turn; stated by `StepSkipsExisting`, `StepDownloadsWhenFree`, `StepSeenSet`, `StepCalls`, `StepLog` and `StepDisk` |
| CliDownload.StepSkipsExisting | classroom_downloader.py:275-278 | for an unseen id whose destination exists, the turn requests the metadata only, marks the id, leaves the disk unchanged and raises nothing |
| CliDownload.StepDownloadsWhenFree | classroom_downloader.py:275-282 | for an unseen id whose destination is free, a dry run only marks the id; otherwise the turn requests the content (export or raw, by mime type), stores the drained bytes at the destination, and marks the id exactly when the transfer finished |
| CliDownload.Run | classroom_downloader.py:258-283 | reference definition of the loop over the pairs, stopping at the first exception; stated by the `Run...` lemmas |
| CliDownload.CourseRun | classroom_downloader.py:242-283 | reference definition of `download_all_for_course`; `DownloadAllForCourse` is proved against it |
| CliDownload.RunSnoc | classroom_downloader.py:258-283 | without an earlier exception, pair i is processed on the state left by the pairs before it |
| CliDownload.StepCalls | classroom_downloader.py:263-282 | a turn for an unseen id appends its metadata request and, outside a dry run, at most one content request for the same file |
| CliDownload.StepSeenSet | classroom_downloader.py:259-283 | one turn leaves a seen id alone, and adds the id exactly when the turn raises nothing |
| CliDownload.StepLog | classroom_downloader.py:263-282 | a turn for an unseen id requests its metadata once and its content at most once, never in a dry run |
| CliDownload.TurnLog | classroom_downloader.py:263-282 | such a turn adds its id once to the metadata ids and at most once to the content ids |
| CliDownload.StepDisk | classroom_downloader.py:275-282 | a turn keeps every existing file and can only add the pair's own destination with its drained bytes; a dry run adds nothing |
| CliDownload.RunRecordsListedIds | classroom_downloader.py:258-283 | a run without exception ends with the old seen-set plus every listed id |
| CliDownload.ListedIds | classroom_downloader.py:258 | the set of ids of the listed pairs |
| CliDownload.RunFetchesOnce | classroom_downloader.py:258-283 | no id of the incoming seen-set is requested, and each id is requested for metadata, and for content, at most once per run however often it is listed |
| CliDownload.RunNeverOverwrites | classroom_downloader.py:277-280 | a file that existed before the run keeps its bytes |
| CliDownload.RunWritesOnlyDestinations | classroom_downloader.py:269-282 | every new file sits at the destination of a listed pair and holds the drained bytes of that pair's media request |
| CliDownload.RunDryRunKeepsDisk | classroom_downloader.py:206-208 | a dry run leaves the modelled files unchanged and requests no content; the course directories it creates are not modelled |
| AppClassroom.ListAllCourses | app/classroom.py:1-13 | the page loop returns every course of every page read, unfiltered, or the error of the call past the last page |
| AppClassroom.AllCourses | app/classroom.py:1-13 | reference definition of the web `list_all_courses`; `ListAllCourses` is proved against it |
| AppClassroom.ListCourseFiles | app/classroom.py:16-47 | courseWork pairs then courseWorkMaterial pairs, with the first exception winning |
| AppClassroom.CourseFiles | app/classroom.py:16-47 | reference definition of the web `list_course_files`; `ListCourseFiles` is proved against it and `CourseFilesCount` counts its pairs |
| AppClassroom.Collected | app/classroom.py:19-31 | reference definition of one page loop: the pairs of the records read, then the error of a call past the last page |
| AppClassroom.CollectedStopsAtError | app/classroom.py:19-31 | a `KeyError` on a page that was read is the outcome of the whole page loop |
| AppClassroom.CollectPairs | app/classroom.py:19-31 | one page loop appends the pairs of every record read; a `KeyError` on a page read precedes the error of a later list call |
| AppClassroom.AppendRecordPairs | app/classroom.py:24-28 | the loop over a page's records appends their pairs or stops at the first `KeyError` |
| AppClassroom.AppendMaterialPairs | app/classroom.py:25-28 | the loop over materials appends their pairs or stops at the first `KeyError` |
| AppClassroom.MaterialsPairsAppend | app/classroom.py:25-28 | the outcome on `a + b` is the outcome on `a` chained with the outcome on `b` |
| AppClassroom.RecordsPairsAppend | app/classroom.py:24-28 | the outcome on `a + b` is the outcome on `a` chained with the outcome on `b` |
| AppClassroom.MaterialsPairsSpec | app/classroom.py:25-28 | the loop raises `KeyError("id")` iff some material has a non-empty inner `driveFile` without an id; otherwise one pair per such material, hint = inner title or "file" |
| AppClassroom.MaterialPair | app/classroom.py:26-28 | reference definition of what one material yields: nothing, a pair, or `KeyError("id")`; stated by `MaterialsPairsSpec` |
| AppClassroom.InnerDriveFile | app/classroom.py:26 | reference definition of `m.get("driveFile", {}).get("driveFile")`: the inner record, absent when either key is; used by `MaterialPair` and stated through `MaterialsPairsSpec` |
| AppClassroom.MaterialsPairs | app/classroom.py:25-28 | reference definition of the material loop: the pairs in order, or the first `KeyError`; `AppendMaterialPairs` is proved against it and `MaterialsPairsSpec` states it |
| AppClassroom.RecordsPairs | app/classroom.py:24-28 | reference definition of the record loop: the records' pairs in order, or the first `KeyError`; stated by `RecordsPairsAppend`, `RecordsPairsCount` and `RecordsPairsIgnoreTitles` |
| AppClassroom.RecordsPairsIgnoreTitles | app/classroom.py:24-28 | record titles play no part: records with the same materials give the same pairs |
| AppClassroom.RecordsPairsCount | app/classroom.py:24-28 | without exception the number of pairs is the number of qualifying materials |
| AppClassroom.CourseFilesCount | app/classroom.py:16-47 | when `list_course_files` returns, both page loops stopped at a falsy token and the number of pairs is the number of qualifying materials on the courseWork pages plus that on the courseWorkMaterial pages |
| AppDrive.BytesIO.constructor | app/drive.py:33 | a new buffer is empty at position 0 |
| AppDrive.BytesIO.Write | app/drive.py:35-37 | a write overwrites from the position and advances it; the bytes before and after stay; a position past the end keeps the old bytes and fills the gap with zeros |
| AppDrive.BytesIO.Seek | app/drive.py:39 | seeking moves the position only |
| AppDrive.BytesIO.Read | app/drive.py:40 | reading returns everything from the position to the end |
| AppDrive.DownloadFileBytes | app/drive.py:16-40 | the loop over a fresh in-memory buffer returns the name and bytes (or the exception) that the model of `download_file_bytes` gives, after the same Drive requests |
| AppDrive.DrainInto | app/drive.py:33-37 | the loop leaves exactly the chunks up to the first `done` one in the empty buffer, with the position at its end, and reports failure when the chunks run out first |
| AppDrive.RequestAndName | app/drive.py:24-29 | reference definition of the request and the returned name chosen from the metadata |
| AppDrive.FetchFile | app/drive.py:16-40 | reference definition of `download_file_bytes`: the result and the Drive requests; stated by `FetchFileSpec` and `FetchFileMissingKeys` |
| AppDrive.FetchFileMissingKeys | app/drive.py:21-22 | missing `mimeType` (checked first) or `name` raises `KeyError` after the metadata request and before any content request |
| AppDrive.FetchFileSpec | app/drive.py:16-40 | when the metadata has both keys: a native type is exported under the table's mime type with the extension appended to the metadata name unconditionally, other types are fetched raw; the call returns iff some chunk is `done`, and then the bytes are the chunks up to the first `done` one |
| AppDrive.FirstDone | app/drive.py:35-37 | the index of the first `done` chunk, every earlier chunk not done |
| AppDrive.FetchFileAppendsTwice | app/drive.py:24-29 | a document named "a.pdf" is returned as "a.pdf.pdf" |
| AppMain.NextCourseShift | app/main.py:103-107 | one course's turn does not depend on the entries generated before it |
| AppMain.Gen | app/main.py:102-107 | reference definition of `gen()` over the course ids; stated by `GenAppend` and `GenCount` |
| AppMain.NextCourse | app/main.py:103-107 | reference definition of one course turn: list the files, then fetch them, unless an earlier turn raised |
| AppMain.CourseEntries | app/main.py:105-107 | reference definition of the inner loop over one course's pairs; stated by `CourseEntriesSpec` and `CourseEntriesIgnoreHints` |
| AppMain.EntryPath | app/main.py:107 | reference definition of `f"{cid}/{name}"`; `CourseEntriesSpec` states every entry's path in its terms |
| AppMain.CourseEntriesSpec | app/main.py:105-107 | entry i is `cid/name` with the name and bytes fetched for listed pair i, until the first failing fetch, whose error ends the generator; without failure there is one entry per pair |
| AppMain.CourseEntriesIgnoreHints | app/main.py:105 | the title hints are discarded: lists with the same ids give the same entries |
| AppMain.GenAppend | app/main.py:102-107 | over `a + b` the generator yields the entries for `a`, then, only if `a` raised nothing, those for `b` |
| AppMain.GenCount | app/main.py:102-107 | without failure every listing succeeded and the number of entries is the total number of listed pairs |
| Variants.ExportTablesAgree | app/drive.py:4-14 | the web export table equals the command-line one |
| Variants.MaterialExtractorsAgree | app/classroom.py:24-28 | whatever the command line lists, the web application lists with the same id; the web application fails only on materials the command line drops; a web pair with a non-empty id is also a command-line pair |
| Variants.EmptyIdContrast | app/classroom.py:26-28 | a material with an empty id is dropped by the command line and listed by the web application |
| Variants.ExtensionContrast | app/drive.py:24-29 | for a document named "a.pdf" the command line keeps the name and the web application gives "a.pdf.pdf" |

## Left out

- OAuth: obtaining, refreshing and storing credentials (`get_credentials`, `app/oauth.py`), and the session token check of the download route.
- The FastAPI routes other than the body of `gen()`, and the zip streaming of its entries (`app/zipstreamer.py`).
- `load_index` and `save_index`: the JSON index file is I/O. The model takes the id set as it stands before a course.
- `parse_args` and `main`: argument parsing and the loop over the courses.
- Printing and logging.
- Directory creation (`mkdir`), which happens even in a dry run: `dest_path.parent.mkdir` runs before the dry-run return, so a dry run does create the course directories. A path is a sequence of name segments, and directories are not files on the modelled disk.
- CliDownload.CourseDir: a course name of "." or ".." (or one that strips to it, such as " . ") survives `safe_filename`. The model keeps it as a literal segment below the base directory. In the code, pathlib turns `base_dir / "."` into `base_dir` itself, so the course's files land directly in `base_dir` and `exists()` is checked there, and `base_dir / ".."` is the parent of `base_dir`. Path normalisation is not modelled, because paths are kept as lists of segments.
- CliDownload.Destination: a display name of "." or ".." survives `safe_filename` (`FileNames.SafeFilenameKeepsDotNames`), and `ensure_extension` keeps it for a type outside the export table. The model still treats it as a new file segment below the course directory. In the code, when the course directory already exists, `exists()` is true for both names, so the id is marked without any content request. When it does not exist yet, the two names differ. pathlib turns `course_dir / "."` into `course_dir` itself, so `mkdir` creates only `base_dir`, `io.FileIO` then creates a regular file where the course directory should be and writes the content into it, and the id is marked; the course's next new file then fails in `mkdir` with `FileExistsError`. pathlib keeps `course_dir / ".."`, so `mkdir` creates the course directory and opening `course_dir/..` for writing raises `IsADirectoryError`. None of this is modelled, because directories are not part of the modelled disk.
- Unicode: `\w`, `str.isspace`, `lower` and `strip` are modelled on ASCII only.
- The `courseStates` query parameter of the web course listing: the course pages are taken as the service returns them.
- Page tokens are opaque. Only their truthiness decides whether the loop continues.
- The Drive request log records metadata and content requests only, not Classroom list calls.
- Python dictionaries are records with the fields the code reads. A `driveFile` dictionary is truthy when one of `id`, `title` or `alternateLink` is present; other keys are not modelled.
- A network failure inside a list call or a chunk fetch is not modelled separately. A missing page, a missing metadata entry, or a transfer with no `done` chunk stands for every `HttpError`.
- Status reports from `next_chunk` (progress percentages).
