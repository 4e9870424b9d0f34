/**
 * The data model of the Google Classroom and Drive responses that the
 * downloader reads, and of the requests it issues.  Every JSON key the code
 * reads with `.get` is an `Option`, so that "key absent" and "key present
 * but falsy" stay distinct.
 */
module GoogleApi {
  import opened Wrappers

  newtype byte = x: int | 0 <= x < 256

  /** The exceptions that leave the modelled code: any failure of a Google
      client call (`HttpError`, transport errors), or a `KeyError`. */
  datatype Error = HttpError | KeyError(key: string)

  datatype Result<+T> = Ok(value: T) | Err(error: Error)

  /** Sequential composition of two list-producing steps: the first error
      wins, otherwise the lists are concatenated in order. */
  function Chain<T>(first: Result<seq<T>>, second: Result<seq<T>>): Result<seq<T>>
  {
    if first.Err? then first
    else if second.Err? then second
    else Ok(first.value + second.value)
  }

  lemma ChainAssociative<T>(a: Result<seq<T>>, b: Result<seq<T>>, c: Result<seq<T>>)
    ensures Chain(Chain(a, b), c) == Chain(a, Chain(b, c))
  {
    if a.Ok? && b.Ok? && c.Ok? {
      assert (a.value + b.value) + c.value == a.value + (b.value + c.value);
    }
  }

  lemma ChainUnits<T>(r: Result<seq<T>>)
    ensures Chain(r, Ok([])) == r
    ensures Chain(Ok([]), r) == r
  {
    if r.Ok? {
      assert r.value + [] == r.value;
      assert [] + r.value == r.value;
    }
  }

  /** Python truthiness of an optional string: present and non-empty. */
  predicate Truthy(s: Option<string>) {
    s.Some? && s.value != ""
  }

  /** One response of a paginated list call: the items under the
      collection's key (`courses`, `courseWork`, `courseWorkMaterial`) and
      the `nextPageToken`. */
  datatype Page<T> = Page(items: Option<seq<T>>, nextPageToken: Option<string>)

  /** `resp.get(<collection>, [])` */
  function Items<T>(p: Page<T>): seq<T> {
    p.items.GetOr([])
  }

  datatype Course = Course(id: Option<string>, name: Option<string>)

  /** The inner `driveFile` record of a material. */
  datatype DriveFile = DriveFile(id: Option<string>, title: Option<string>, alternateLink: Option<string>)

  /** Python truthiness of the inner record: a non-empty dict. */
  predicate DriveFileTruthy(d: DriveFile) {
    d.id.Some? || d.title.Some? || d.alternateLink.Some?
  }

  /** The `driveFile` wrapper of a material (a SharedDriveFile). */
  datatype SharedDriveFile = SharedDriveFile(driveFile: Option<DriveFile>, shareMode: Option<string>)

  /** Python truthiness of the wrapper: a non-empty dict. */
  predicate SharedDriveFileTruthy(w: SharedDriveFile) {
    w.driveFile.Some? || w.shareMode.Some?
  }

  /** A material reference; links, videos and forms carry no `driveFile`. */
  datatype Material = Material(driveFile: Option<SharedDriveFile>)

  /** A courseWork or courseWorkMaterial record. */
  datatype Record = Record(title: Option<string>, materials: Option<seq<Material>>)

  /** `record.get("materials", [])` */
  function Materials(r: Record): seq<Material> {
    r.materials.GetOr([])
  }

  /** A listed pair (drive file id, name hint). */
  datatype Attachment = Attachment(fileId: string, hint: string)

  /** The Classroom service: the pages answered to the course listing, and
      per course id the pages of its two content collections.  An unknown
      course id has no pages, so its first list call fails. */
  datatype Classroom = Classroom(
    courses: seq<Page<Course>>,
    courseWork: map<string, seq<Page<Record>>>,
    courseWorkMaterials: map<string, seq<Page<Record>>>)

  function CourseWorkPages(c: Classroom, courseId: string): seq<Page<Record>> {
    if courseId in c.courseWork then c.courseWork[courseId] else []
  }

  function MaterialPages(c: Classroom, courseId: string): seq<Page<Record>> {
    if courseId in c.courseWorkMaterials then c.courseWorkMaterials[courseId] else []
  }

  /** Drive file metadata as requested with `fields="name,mimeType"`. */
  datatype Metadata = Metadata(name: Option<string>, mimeType: Option<string>)

  /** `files().get_media(fileId)` or `files().export_media(fileId, mimeType)`. */
  datatype MediaRequest = GetMedia(fileId: string) | ExportMedia(fileId: string, mimeType: string)

  /** What one `next_chunk()` call writes, and the `done` flag it returns. */
  datatype Chunk = Chunk(data: seq<byte>, done: bool)

  /** The Drive service: metadata per file id (absent = the call raises) and
      the chunks each media request answers (a request without chunks fails
      on its first `next_chunk()`). */
  datatype Drive = Drive(metadata: map<string, Metadata>, media: map<MediaRequest, seq<Chunk>>)

  function ChunksFor(d: Drive, request: MediaRequest): seq<Chunk> {
    if request in d.media then d.media[request] else []
  }

  /** A request issued to Drive, as recorded in the ghost call logs. */
  datatype DriveCall = GetMetadata(fileId: string) | Download(request: MediaRequest)

  /** An entry of an export table: the export mime type and the extension. */
  datatype ExportRule = ExportRule(exportMime: string, extension: string)
}
