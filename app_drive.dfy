/**
 * `download_file_bytes` of the web application: metadata, the export or
 * raw media request, the `name += ext` rule, and the chunks drained into an
 * in-memory `io.BytesIO` that is then read from offset 0.
 */
module AppDrive {
  import opened Wrappers
  import opened GoogleApi
  import opened Media

  /** `GOOGLE_EXPORTS` */
  const GoogleExports: map<string, ExportRule> := map[
    "application/vnd.google-apps.document" :=
      ExportRule("application/pdf", ".pdf"),
    "application/vnd.google-apps.presentation" :=
      ExportRule("application/vnd.openxmlformats-officedocument.presentationml.presentation", ".pptx"),
    "application/vnd.google-apps.spreadsheet" :=
      ExportRule("application/vnd.openxmlformats-officedocument.spreadsheetml.sheet", ".xlsx")
  ]

  /** `io.BytesIO`: a growable byte buffer with a position. */
  class BytesIO {
    var buffer: seq<byte>
    var position: nat

    constructor ()
      ensures buffer == [] && position == 0
    {
      buffer := [];
      position := 0;
    }

    /** Overwrites from the position on (padding with zero bytes when the
        position is past the end) and moves the position past the data. */
    method Write(data: seq<byte>)
      modifies this
      ensures position == old(position) + |data|
      ensures |buffer| == if old(position) + |data| > |old(buffer)| then old(position) + |data| else |old(buffer)|
      ensures buffer[old(position)..position] == data
      ensures old(position) <= |old(buffer)| ==> buffer[..old(position)] == old(buffer)[..old(position)]
      ensures position < |old(buffer)| ==> buffer[position..] == old(buffer)[position..]
      ensures old(position) > |old(buffer)| ==>
        buffer[..|old(buffer)|] == old(buffer) &&
        forall i | |old(buffer)| <= i < old(position) :: buffer[i] == 0
    {
      var before := if position <= |buffer| then buffer[..position] else buffer + seq(position - |buffer|, _ => 0 as byte);
      var after := if position + |data| < |buffer| then buffer[position + |data|..] else [];
      buffer := before + data + after;
      position := position + |data|;
    }

    method Seek(offset: nat)
      modifies this
      ensures position == offset && buffer == old(buffer)
    {
      position := offset;
    }

    /** Everything from the position to the end; the position moves to the end. */
    method Read() returns (data: seq<byte>)
      modifies this
      ensures data == if old(position) < |buffer| then buffer[old(position)..] else []
      ensures buffer == old(buffer)
      ensures position == if old(position) < |buffer| then |buffer| else old(position)
    {
      if position < |buffer| {
        data := buffer[position..];
        position := |buffer|;
      } else {
        data := [];
      }
    }
  }

  /** The `(name, bytes)` pair `download_file_bytes` returns. */
  datatype Fetched = Fetched(name: string, data: seq<byte>)

  /** The outcome of one call together with the Drive requests it issued. */
  datatype Fetch = Fetch(result: Result<Fetched>, calls: seq<DriveCall>)

  /** The request and the returned name, for a file with these metadata. */
  function RequestAndName(fileId: string, mime: string, name: string): (MediaRequest, string) {
    if mime in GoogleExports then
      (ExportMedia(fileId, GoogleExports[mime].exportMime), name + GoogleExports[mime].extension)
    else (GetMedia(fileId), name)
  }

  /** What `download_file_bytes(drive, file_id)` does. */
  function FetchFile(drive: Drive, fileId: string): Fetch {
    var metaCall := [GetMetadata(fileId)];
    if fileId !in drive.metadata then Fetch(Err(HttpError), metaCall)
    else
      var meta := drive.metadata[fileId];
      if meta.mimeType.None? then Fetch(Err(KeyError("mimeType")), metaCall)
      else if meta.name.None? then Fetch(Err(KeyError("name")), metaCall)
      else
        var (request, name) := RequestAndName(fileId, meta.mimeType.value, meta.name.value);
        var drained := Drain(ChunksFor(drive, request));
        Fetch(if drained.complete then Ok(Fetched(name, drained.data)) else Err(HttpError),
              metaCall + [Download(request)])
  }

  method DownloadFileBytes(drive: Drive, fileId: string) returns (r: Result<Fetched>, ghost calls: seq<DriveCall>)
    ensures r == FetchFile(drive, fileId).result
    ensures calls == FetchFile(drive, fileId).calls
  {
    calls := [GetMetadata(fileId)];
    if fileId !in drive.metadata {
      return Err(HttpError), calls;
    }
    var meta := drive.metadata[fileId];
    if meta.mimeType.None? {
      return Err(KeyError("mimeType")), calls;
    }
    var mime := meta.mimeType.value;
    if meta.name.None? {
      return Err(KeyError("name")), calls;
    }
    var name := meta.name.value;

    var request;
    if mime in GoogleExports {
      var rule := GoogleExports[mime];
      request := ExportMedia(fileId, rule.exportMime);
      name := name + rule.extension;
    } else {
      request := GetMedia(fileId);
    }
    calls := calls + [Download(request)];

    var fh := new BytesIO();
    var complete := DrainInto(ChunksFor(drive, request), fh);
    if !complete {
      return Err(HttpError), calls;
    }
    fh.Seek(0);
    var data := fh.Read();
    assert fh.buffer[0..] == fh.buffer;
    return Ok(Fetched(name, data)), calls;
  }

  /** `while not done: _, done = downloader.next_chunk()` into the empty
      buffer `fh`: every chunk is written in order, up to the first `done`
      one; running out of chunks first is a failure. */
  method DrainInto(chunks: seq<Chunk>, fh: BytesIO) returns (complete: bool)
    requires fh.buffer == [] && fh.position == 0
    modifies fh
    ensures complete == Drain(chunks).complete
    ensures fh.buffer == Drain(chunks).data && fh.position == |fh.buffer|
  {
    var done := false;
    var k := 0;
    while !done
      invariant 0 <= k <= |chunks|
      invariant fh.buffer == Joined(chunks[..k]) && fh.position == |fh.buffer|
      invariant forall j | 0 <= j < (if done then k - 1 else k) :: !chunks[j].done
      invariant done ==> 0 < k && chunks[k - 1].done
      decreases |chunks| - k
    {
      if k == |chunks| {
        DrainStopsAtFirstDone(chunks, k);
        assert chunks[..k] == chunks;
        return false;
      }
      var chunk := chunks[k];
      fh.Write(chunk.data);
      assert chunks[..k + 1][..k] == chunks[..k];
      done := chunk.done;
      k := k + 1;
    }
    DrainStopsAtFirstDone(chunks, k - 1);
    return true;
  }

  // ------------------------------------------------------------- properties

  /** Metadata lacking `mimeType` or `name` raises `KeyError` (the mime
      type is read first), after the metadata call and before any content
      request. */
  lemma FetchFileMissingKeys(drive: Drive, fileId: string)
    requires fileId in drive.metadata
    requires drive.metadata[fileId].mimeType.None? || drive.metadata[fileId].name.None?
    ensures FetchFile(drive, fileId).result ==
      Err(KeyError(if drive.metadata[fileId].mimeType.None? then "mimeType" else "name"))
    ensures FetchFile(drive, fileId).calls == [GetMetadata(fileId)]
  {
  }

  /** A native type is exported under the table's mime type and its
      extension is appended unconditionally to the unsanitised metadata
      name; any other type is fetched raw under the metadata name as is.
      The call returns exactly when some chunk is `done`, and the returned
      bytes are the chunks up to the first `done` one. */
  lemma FetchFileSpec(drive: Drive, fileId: string)
    requires fileId in drive.metadata
    requires drive.metadata[fileId].mimeType.Some? && drive.metadata[fileId].name.Some?
    ensures var meta := drive.metadata[fileId];
      var mime := meta.mimeType.value;
      var request := if mime in GoogleExports then ExportMedia(fileId, GoogleExports[mime].exportMime) else GetMedia(fileId);
      var f := FetchFile(drive, fileId);
      f.calls == [GetMetadata(fileId), Download(request)] &&
      (f.result.Ok? <==> exists n | 0 <= n < |ChunksFor(drive, request)| :: ChunksFor(drive, request)[n].done) &&
      (f.result.Ok? ==>
        f.result.value.name == meta.name.value + (if mime in GoogleExports then GoogleExports[mime].extension else "") &&
        exists n | 0 <= n < |ChunksFor(drive, request)| ::
          ChunksFor(drive, request)[n].done &&
          (forall j | 0 <= j < n :: !ChunksFor(drive, request)[j].done) &&
          f.result.value.data == Joined(ChunksFor(drive, request)[..n + 1]))
  {
    var meta := drive.metadata[fileId];
    var mime := meta.mimeType.value;
    var request := if mime in GoogleExports then ExportMedia(fileId, GoogleExports[mime].exportMime) else GetMedia(fileId);
    var chunks := ChunksFor(drive, request);
    if mime !in GoogleExports {
      assert meta.name.value + "" == meta.name.value;
    }
    var n := FirstDone(chunks);
    DrainStopsAtFirstDone(chunks, n);
  }

  /** The index of the first `done` chunk, or the length when none is. */
  function FirstDone(chunks: seq<Chunk>): (n: nat)
    ensures n <= |chunks|
    ensures forall j | 0 <= j < n :: !chunks[j].done
    ensures n < |chunks| ==> chunks[n].done
  {
    if chunks == [] || chunks[0].done then 0 else 1 + FirstDone(chunks[1..])
  }

  /** The extension is appended even when the name already has it. */
  lemma FetchFileAppendsTwice(drive: Drive, fileId: string)
    requires fileId in drive.metadata
    requires drive.metadata[fileId] == Metadata(Some("a.pdf"), Some("application/vnd.google-apps.document"))
    requires FetchFile(drive, fileId).result.Ok?
    ensures FetchFile(drive, fileId).result.value.name == "a.pdf.pdf"
  {
  }
}
