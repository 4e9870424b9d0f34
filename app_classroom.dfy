/**
 * `list_all_courses` and `list_course_files` of the web application.
 * Unlike the command-line versions, the course listing is unfiltered, a
 * material is listed when its inner `driveFile` dict is truthy (an empty
 * id is listed, a missing id raises `KeyError`), and the hint falls back to
 * the literal "file", never to the record's title.
 */
module AppClassroom {
  import opened Wrappers
  import opened GoogleApi
  import opened Pagination

  // ---------------------------------------------------------------- courses

  /** What `list_all_courses` returns for these course pages. */
  function AllCourses(pages: seq<Page<Course>>): Result<seq<Course>> {
    var l := Paginate(pages);
    if l.exhausted then Err(HttpError) else Ok(l.items)
  }

  method ListAllCourses(pages: seq<Page<Course>>) returns (r: Result<seq<Course>>)
    ensures r == AllCourses(pages)
  {
    var courses: seq<Course> := [];
    var page := 0;
    while true
      invariant 0 <= page <= |pages|
      invariant forall j | 0 <= j < page :: Truthy(pages[j].nextPageToken)
      invariant courses == Concat(pages[..page])
      decreases |pages| - page
    {
      if page == |pages| {
        PaginateStopsAtFirstFalsy(pages, page);
        assert pages[..page] == pages;
        return Err(HttpError);
      }
      var resp := pages[page];
      courses := courses + Items(resp);
      assert pages[..page + 1][..page] == pages[..page];
      if !Truthy(resp.nextPageToken) {
        PaginateStopsAtFirstFalsy(pages, page);
        return Ok(courses);
      }
      page := page + 1;
    }
  }

  // ---------------------------------------------------------- course files

  /** `m.get("driveFile", {}).get("driveFile")` */
  function InnerDriveFile(m: Material): Option<DriveFile> {
    if m.driveFile.Some? then m.driveFile.value.driveFile else None
  }

  /** The test of `list_course_files` on one material. */
  function MaterialPair(m: Material): Result<Option<Attachment>> {
    var df := InnerDriveFile(m);
    if df.Some? && DriveFileTruthy(df.value) then
      if df.value.id.None? then Err(KeyError("id"))
      else Ok(Some(Attachment(df.value.id.value, df.value.title.GetOr("file"))))
    else Ok(None)
  }

  function AsList(r: Result<Option<Attachment>>): Result<seq<Attachment>> {
    match r
    case Err(e) => Err(e)
    case Ok(None) => Ok([])
    case Ok(Some(a)) => Ok([a])
  }

  function MaterialsPairs(ms: seq<Material>): Result<seq<Attachment>> {
    if ms == [] then Ok([]) else Chain(MaterialsPairs(ms[..|ms| - 1]), AsList(MaterialPair(ms[|ms| - 1])))
  }

  function RecordsPairs(rs: seq<Record>): Result<seq<Attachment>> {
    if rs == [] then Ok([]) else Chain(RecordsPairs(rs[..|rs| - 1]), MaterialsPairs(Materials(rs[|rs| - 1])))
  }

  /** One page loop of `list_course_files`: the pairs of the records on
      the pages read, then the failure of a call past the last page.  A
      `KeyError` on a page read comes first, since each page is processed
      before the next call. */
  function Collected(pages: seq<Page<Record>>): Result<seq<Attachment>> {
    var l := Paginate(pages);
    Chain(RecordsPairs(l.items), if l.exhausted then Err(HttpError) else Ok([]))
  }

  /** What `list_course_files` returns: the courseWork loop, then the
      courseWorkMaterial loop. */
  function CourseFiles(classroom: Classroom, courseId: string): Result<seq<Attachment>> {
    Chain(Collected(CourseWorkPages(classroom, courseId)), Collected(MaterialPages(classroom, courseId)))
  }

  method ListCourseFiles(classroom: Classroom, courseId: string) returns (r: Result<seq<Attachment>>)
    ensures r == CourseFiles(classroom, courseId)
  {
    var files: seq<Attachment> := [];
    var cw := CourseWorkPages(classroom, courseId);
    r := CollectPairs(files, cw);
    assert Chain(Ok(files), Collected(cw)) == Collected(cw) by {
      if Collected(cw).Ok? { assert files + Collected(cw).value == Collected(cw).value; }
    }
    if r.Err? {
      return;
    }
    files := r.value;
    var m := MaterialPages(classroom, courseId);
    r := CollectPairs(files, m);
  }

  /** One `while True` page loop of `list_course_files`, appending to `files`. */
  method CollectPairs(files: seq<Attachment>, pages: seq<Page<Record>>) returns (r: Result<seq<Attachment>>)
    ensures r == Chain(Ok(files), Collected(pages))
  {
    var out := files;
    var i := 0;
    ChainUnits(Ok(files));
    while true
      invariant 0 <= i <= |pages|
      invariant forall j | 0 <= j < i :: Truthy(pages[j].nextPageToken)
      invariant Chain(Ok(files), RecordsPairs(Concat(pages[..i]))) == Ok(out)
      decreases |pages| - i
    {
      if i == |pages| {
        PaginateStopsAtFirstFalsy(pages, i);
        assert pages[..i] == pages;
        return Err(HttpError);
      }
      var resp := pages[i];
      var before := Concat(pages[..i]);
      assert pages[..i + 1][..i] == pages[..i];
      assert Concat(pages[..i + 1]) == before + Items(resp);
      RecordsPairsAppend(before, Items(resp));
      ChainAssociative(Ok(files), RecordsPairs(before), RecordsPairs(Items(resp)));
      ChainAssociative(Ok(files), Ok(out), RecordsPairs(Items(resp)));
      var next := AppendRecordPairs(out, Items(resp));
      if next.Err? {
        CollectedStopsAtError(pages, i);
        return next;
      }
      out := next.value;
      if !Truthy(resp.nextPageToken) {
        PaginateStopsAtFirstFalsy(pages, i);
        ChainUnits(RecordsPairs(Concat(pages[..i + 1])));
        return Ok(out);
      }
      i := i + 1;
    }
  }

  /** A `KeyError` raised on a page that was read ends the loop with it. */
  lemma {:induction false} CollectedStopsAtError(pages: seq<Page<Record>>, i: nat)
    requires i < |pages|
    requires forall j | 0 <= j < i :: Truthy(pages[j].nextPageToken)
    requires RecordsPairs(Concat(pages[..i + 1])).Err?
    ensures Collected(pages) == RecordsPairs(Concat(pages[..i + 1]))
  {
    PaginateReadsPrefix(pages, i);
    var read := Paginate(pages).items;
    var prefix := Concat(pages[..i + 1]);
    assert read == prefix + read[|prefix|..];
    RecordsPairsAppend(prefix, read[|prefix|..]);
  }

  /** `for cw in <page items>: for m in cw.get("materials", []): ...` */
  method AppendRecordPairs(files: seq<Attachment>, records: seq<Record>) returns (r: Result<seq<Attachment>>)
    ensures r == Chain(Ok(files), RecordsPairs(records))
  {
    var out := files;
    var j := 0;
    ChainUnits(Ok(files));
    while j < |records|
      invariant 0 <= j <= |records|
      invariant Chain(Ok(files), RecordsPairs(records[..j])) == Ok(out)
    {
      var record := records[j];
      assert records[..j + 1][..j] == records[..j];
      ChainAssociative(Ok(files), RecordsPairs(records[..j]), MaterialsPairs(Materials(record)));
      var next := AppendMaterialPairs(out, Materials(record));
      if next.Err? {
        RecordsPairsAppend(records[..j + 1], records[j + 1..]);
        assert records[..j + 1] + records[j + 1..] == records;
        return next;
      }
      out := next.value;
      j := j + 1;
    }
    assert records[..j] == records;
    return Ok(out);
  }

  /** `for m in <materials>: ...` */
  method AppendMaterialPairs(files: seq<Attachment>, ms: seq<Material>) returns (r: Result<seq<Attachment>>)
    ensures r == Chain(Ok(files), MaterialsPairs(ms))
  {
    var out := files;
    var k := 0;
    ChainUnits(Ok(files));
    while k < |ms|
      invariant 0 <= k <= |ms|
      invariant Chain(Ok(files), MaterialsPairs(ms[..k])) == Ok(out)
    {
      var m := ms[k];
      assert ms[..k + 1][..k] == ms[..k];
      ChainAssociative(Ok(files), MaterialsPairs(ms[..k]), AsList(MaterialPair(m)));
      var df := if m.driveFile.Some? then m.driveFile.value.driveFile else None;
      if df.Some? && DriveFileTruthy(df.value) {
        if df.value.id.None? {
          MaterialsPairsAppend(ms[..k + 1], ms[k + 1..]);
          assert ms[..k + 1] + ms[k + 1..] == ms;
          return Err(KeyError("id"));
        }
        out := out + [Attachment(df.value.id.value, df.value.title.GetOr("file"))];
      } else {
        ChainUnits(Ok(out));
      }
      k := k + 1;
    }
    assert ms[..k] == ms;
    return Ok(out);
  }

  lemma {:induction false} MaterialsPairsAppend(a: seq<Material>, b: seq<Material>)
    ensures MaterialsPairs(a + b) == Chain(MaterialsPairs(a), MaterialsPairs(b))
    decreases |b|
  {
    if b == [] {
      assert a + b == a;
      if MaterialsPairs(a).Ok? { assert MaterialsPairs(a).value + [] == MaterialsPairs(a).value; }
    } else {
      var init := b[..|b| - 1];
      assert (a + b)[..|a + b| - 1] == a + init;
      MaterialsPairsAppend(a, init);
      ChainAssociative(MaterialsPairs(a), MaterialsPairs(init), AsList(MaterialPair(b[|b| - 1])));
    }
  }

  lemma {:induction false} RecordsPairsAppend(a: seq<Record>, b: seq<Record>)
    ensures RecordsPairs(a + b) == Chain(RecordsPairs(a), RecordsPairs(b))
    decreases |b|
  {
    if b == [] {
      assert a + b == a;
      if RecordsPairs(a).Ok? { assert RecordsPairs(a).value + [] == RecordsPairs(a).value; }
    } else {
      var init := b[..|b| - 1];
      assert (a + b)[..|a + b| - 1] == a + init;
      RecordsPairsAppend(a, init);
      ChainAssociative(RecordsPairs(a), RecordsPairs(init), MaterialsPairs(Materials(b[|b| - 1])));
    }
  }

  // ------------------------------------------------------------- properties

  /** A material whose inner `driveFile` dict is present and truthy. */
  predicate Qualifies(m: Material) {
    InnerDriveFile(m).Some? && DriveFileTruthy(InnerDriveFile(m).value)
  }

  /** A qualifying material without an `id` key. */
  predicate LacksId(m: Material) {
    Qualifies(m) && InnerDriveFile(m).value.id.None?
  }

  function CountQualifying(ms: seq<Material>): nat {
    if ms == [] then 0 else CountQualifying(ms[..|ms| - 1]) + (if Qualifies(ms[|ms| - 1]) then 1 else 0)
  }

  /** The materials loop raises `KeyError("id")` iff some qualifying
      material lacks an id; otherwise it lists one pair per qualifying
      material, with the inner id (possibly "") and the inner title or the
      literal "file". */
  lemma {:induction false} MaterialsPairsSpec(ms: seq<Material>)
    ensures MaterialsPairs(ms).Err? <==> exists k | 0 <= k < |ms| :: LacksId(ms[k])
    ensures MaterialsPairs(ms).Err? ==> MaterialsPairs(ms).error == KeyError("id")
    ensures MaterialsPairs(ms).Ok? ==> |MaterialsPairs(ms).value| == CountQualifying(ms)
    ensures MaterialsPairs(ms).Ok? ==> forall a | a in MaterialsPairs(ms).value ::
      exists k | 0 <= k < |ms| :: (Qualifies(ms[k]) &&
        var inner := InnerDriveFile(ms[k]).value;
        a == Attachment(inner.id.value, inner.title.GetOr("file")))
  {
    if ms != [] {
      var init := ms[..|ms| - 1];
      var last := ms[|ms| - 1];
      MaterialsPairsSpec(init);
      assert forall k | 0 <= k < |init| :: ms[k] == init[k];
      if MaterialsPairs(ms).Ok? {
        forall a | a in MaterialsPairs(ms).value
          ensures exists k | 0 <= k < |ms| :: (Qualifies(ms[k]) &&
            var inner := InnerDriveFile(ms[k]).value;
            a == Attachment(inner.id.value, inner.title.GetOr("file")))
        {
          if a !in MaterialsPairs(init).value {
            assert Qualifies(ms[|ms| - 1]);
          }
        }
      }
    }
  }

  /** The record's own title plays no part: two record lists with the same
      materials list the same pairs (or fail alike). */
  lemma {:induction false} RecordsPairsIgnoreTitles(rs: seq<Record>, ts: seq<Record>)
    requires |rs| == |ts|
    requires forall j | 0 <= j < |rs| :: Materials(rs[j]) == Materials(ts[j])
    ensures RecordsPairs(rs) == RecordsPairs(ts)
  {
    if rs != [] {
      RecordsPairsIgnoreTitles(rs[..|rs| - 1], ts[..|ts| - 1]);
    }
  }

  function CountRecordsQualifying(rs: seq<Record>): nat {
    if rs == [] then 0 else CountRecordsQualifying(rs[..|rs| - 1]) + CountQualifying(Materials(rs[|rs| - 1]))
  }

  /** Without a `KeyError`, the records loop lists exactly one pair per
      qualifying material. */
  lemma {:induction false} RecordsPairsCount(rs: seq<Record>)
    requires RecordsPairs(rs).Ok?
    ensures |RecordsPairs(rs).value| == CountRecordsQualifying(rs)
  {
    if rs != [] {
      RecordsPairsCount(rs[..|rs| - 1]);
      MaterialsPairsSpec(Materials(rs[|rs| - 1]));
    }
  }

  /** Without an exception, `list_course_files` lists exactly one pair per
      qualifying material on the courseWork pages, then one per qualifying
      material on the courseWorkMaterial pages, and both page loops ended on
      a falsy `nextPageToken`. */
  lemma CourseFilesCount(classroom: Classroom, courseId: string)
    requires CourseFiles(classroom, courseId).Ok?
    ensures !Paginate(CourseWorkPages(classroom, courseId)).exhausted
    ensures !Paginate(MaterialPages(classroom, courseId)).exhausted
    ensures |CourseFiles(classroom, courseId).value| ==
      CountRecordsQualifying(Paginate(CourseWorkPages(classroom, courseId)).items) +
      CountRecordsQualifying(Paginate(MaterialPages(classroom, courseId)).items)
  {
    var cw := Paginate(CourseWorkPages(classroom, courseId));
    var mp := Paginate(MaterialPages(classroom, courseId));
    var first := Collected(CourseWorkPages(classroom, courseId));
    var second := Collected(MaterialPages(classroom, courseId));
    assert first.Ok? && second.Ok?;
    assert RecordsPairs(cw.items).Ok? && !cw.exhausted;
    assert RecordsPairs(mp.items).Ok? && !mp.exhausted;
    RecordsPairsCount(cw.items);
    RecordsPairsCount(mp.items);
    assert |first.value| == |RecordsPairs(cw.items).value|;
    assert |second.value| == |RecordsPairs(mp.items).value|;
  }
}
