/**
 * `list_all_courses` and `list_course_files` of the command-line
 * downloader: page loops that grow a list in place.
 */
module CliListing {
  import opened Wrappers
  import opened GoogleApi
  import opened Text
  import opened Pagination

  // ---------------------------------------------------------------- courses

  /** The filter of `list_all_courses`: with a truthy `name_contains`, the
      lowercased name (absent = "") must contain the lowercased filter. */
  predicate NameMatches(c: Course, nameContains: Option<string>) {
    !Truthy(nameContains) || Contains(Lower(c.name.GetOr("")), Lower(nameContains.value))
  }

  function FilterCourses(cs: seq<Course>, nameContains: Option<string>): seq<Course> {
    if cs == [] then []
    else
      var init := FilterCourses(cs[..|cs| - 1], nameContains);
      var c := cs[|cs| - 1];
      if NameMatches(c, nameContains) then init + [c] else init
  }

  /** The filter keeps exactly the matching courses; without a truthy
      filter it keeps every course in order. */
  lemma {:induction false} FilterCoursesSpec(cs: seq<Course>, nameContains: Option<string>)
    ensures forall c :: c in FilterCourses(cs, nameContains) <==> c in cs && NameMatches(c, nameContains)
    ensures !Truthy(nameContains) ==> FilterCourses(cs, nameContains) == cs
  {
    if cs != [] {
      var init := cs[..|cs| - 1];
      FilterCoursesSpec(init, nameContains);
      assert cs == init + [cs[|cs| - 1]];
    }
  }

  /** The filter distributes over concatenation, so it keeps page and
      record order. */
  lemma {:induction false} FilterCoursesAppend(a: seq<Course>, b: seq<Course>, nameContains: Option<string>)
    ensures FilterCourses(a + b, nameContains) == FilterCourses(a, nameContains) + FilterCourses(b, nameContains)
    decreases |b|
  {
    if b == [] {
      assert a + b == a;
    } else {
      var init := b[..|b| - 1];
      assert (a + b)[..|a + b| - 1] == a + init;
      FilterCoursesAppend(a, init, nameContains);
    }
  }

  /** A single course is kept once when it matches and dropped otherwise;
      with `FilterCoursesAppend` this fixes how often a repeated course is
      kept. */
  lemma FilterCoursesOne(c: Course, nameContains: Option<string>)
    ensures FilterCourses([c], nameContains) == if NameMatches(c, nameContains) then [c] else []
  {
    assert [c][..0] == [];
  }

  /** What `list_all_courses` returns for these course pages. */
  function AllCourses(pages: seq<Page<Course>>, nameContains: Option<string>): Result<seq<Course>> {
    var l := Paginate(pages);
    if l.exhausted then Err(HttpError) else Ok(FilterCourses(l.items, nameContains))
  }

  method ListAllCourses(pages: seq<Page<Course>>, nameContains: Option<string>) returns (r: Result<seq<Course>>)
    ensures r == AllCourses(pages, nameContains)
  {
    var courses: seq<Course> := [];
    var i := 0;
    while true
      invariant 0 <= i <= |pages|
      invariant forall j | 0 <= j < i :: Truthy(pages[j].nextPageToken)
      invariant courses == FilterCourses(Concat(pages[..i]), nameContains)
      decreases |pages| - i
    {
      if i == |pages| {
        PaginateStopsAtFirstFalsy(pages, i);
        assert pages[..i] == pages;
        return Err(HttpError);
      }
      var resp := pages[i];
      courses := AppendMatching(courses, Items(resp), nameContains);
      assert pages[..i + 1][..i] == pages[..i];
      FilterCoursesAppend(Concat(pages[..i]), Items(resp), nameContains);
      var pageToken := resp.nextPageToken;
      if !Truthy(pageToken) {
        PaginateStopsAtFirstFalsy(pages, i);
        return Ok(courses);
      }
      i := i + 1;
    }
  }

  /** `for c in cs: ...`, appending the courses that pass the filter. */
  method AppendMatching(courses: seq<Course>, cs: seq<Course>, nameContains: Option<string>) returns (out: seq<Course>)
    ensures out == courses + FilterCourses(cs, nameContains)
  {
    out := courses;
    var k := 0;
    while k < |cs|
      invariant 0 <= k <= |cs|
      invariant out == courses + FilterCourses(cs[..k], nameContains)
    {
      var c := cs[k];
      if Truthy(nameContains) {
        if Contains(Lower(c.name.GetOr("")), Lower(nameContains.value)) {
          out := out + [c];
        }
      } else {
        out := out + [c];
      }
      assert cs[..k + 1][..k] == cs[..k];
      k := k + 1;
    }
    assert cs[..k] == cs;
  }

  // ---------------------------------------------------------- course files

  /** The test of `list_course_files` on one material: a truthy `driveFile`
      wrapper holding a `driveFile` key whose `id` is truthy; the hint is the
      inner title if present, else `title`. */
  function MaterialPair(m: Material, title: string): Option<Attachment> {
    if m.driveFile.Some? && SharedDriveFileTruthy(m.driveFile.value) && m.driveFile.value.driveFile.Some? then
      var inner := m.driveFile.value.driveFile.value;
      if Truthy(inner.id) then Some(Attachment(inner.id.value, inner.title.GetOr(title))) else None
    else None
  }

  function MaterialsPairs(ms: seq<Material>, title: string): seq<Attachment> {
    if ms == [] then []
    else
      var init := MaterialsPairs(ms[..|ms| - 1], title);
      match MaterialPair(ms[|ms| - 1], title)
      case Some(a) => init + [a]
      case None => init
  }

  /** `title = record.get("title", fallback)`, then its materials. */
  function RecordPairs(r: Record, fallback: string): seq<Attachment> {
    MaterialsPairs(Materials(r), r.title.GetOr(fallback))
  }

  function RecordsPairs(rs: seq<Record>, fallback: string): seq<Attachment> {
    if rs == [] then [] else RecordsPairs(rs[..|rs| - 1], fallback) + RecordPairs(rs[|rs| - 1], fallback)
  }

  /** What `list_course_files` returns: every courseWork pair (hint
      fallback "Assignment") before every courseWorkMaterial pair (fallback
      "Material"), each in page, record and material order. */
  function CourseFiles(classroom: Classroom, courseId: string): Result<seq<Attachment>> {
    var work := Paginate(CourseWorkPages(classroom, courseId));
    if work.exhausted then Err(HttpError)
    else
      var posts := Paginate(MaterialPages(classroom, courseId));
      if posts.exhausted then Err(HttpError)
      else Ok(RecordsPairs(work.items, "Assignment") + RecordsPairs(posts.items, "Material"))
  }

  method ListCourseFiles(classroom: Classroom, courseId: string) returns (r: Result<seq<Attachment>>)
    ensures r == CourseFiles(classroom, courseId)
  {
    var files: seq<Attachment> := [];
    // the courseWork pages, with "Assignment" as the title fallback
    r := CollectPairs(files, CourseWorkPages(classroom, courseId), "Assignment");
    if r.Err? {
      return;
    }
    assert [] + RecordsPairs(Paginate(CourseWorkPages(classroom, courseId)).items, "Assignment")
      == RecordsPairs(Paginate(CourseWorkPages(classroom, courseId)).items, "Assignment");
    files := r.value;
    // then the courseWorkMaterial pages, with "Material" as the fallback
    r := CollectPairs(files, MaterialPages(classroom, courseId), "Material");
  }

  /** One page loop of `list_course_files`, appending to `files`. */
  method CollectPairs(files: seq<Attachment>, pages: seq<Page<Record>>, fallback: string)
    returns (r: Result<seq<Attachment>>)
    ensures var l := Paginate(pages);
      r == if l.exhausted then Err(HttpError) else Ok(files + RecordsPairs(l.items, fallback))
  {
    var out := files;
    var i := 0;
    while true
      invariant 0 <= i <= |pages|
      invariant forall j | 0 <= j < i :: Truthy(pages[j].nextPageToken)
      invariant out == files + RecordsPairs(Concat(pages[..i]), fallback)
      decreases |pages| - i
    {
      if i == |pages| {
        PaginateStopsAtFirstFalsy(pages, i);
        return Err(HttpError);
      }
      var resp := pages[i];
      ghost var before := out;
      out := AppendRecordPairs(out, Items(resp), fallback);
      RecordsPairsAppend(Concat(pages[..i]), Items(resp), fallback);
      assert pages[..i + 1][..i] == pages[..i];
      assert Concat(pages[..i + 1]) == Concat(pages[..i]) + Items(resp);
      assert out == files + RecordsPairs(Concat(pages[..i + 1]), fallback) by {
        assert out == before + RecordsPairs(Items(resp), fallback);
      }
      if !Truthy(resp.nextPageToken) {
        PaginateStopsAtFirstFalsy(pages, i);
        return Ok(out);
      }
      i := i + 1;
    }
  }

  /** `for cw in <page items>: ...`, appending each record's pairs. */
  method AppendRecordPairs(files: seq<Attachment>, records: seq<Record>, fallback: string)
    returns (out: seq<Attachment>)
    ensures out == files + RecordsPairs(records, fallback)
  {
    out := files;
    var j := 0;
    while j < |records|
      invariant 0 <= j <= |records|
      invariant out == files + RecordsPairs(records[..j], fallback)
    {
      var record := records[j];
      var title := record.title.GetOr(fallback);
      out := AppendMaterialPairs(out, Materials(record), title);
      assert records[..j + 1][..j] == records[..j];
      j := j + 1;
    }
    assert records[..j] == records;
  }

  /** `for mat in record.get("materials", []): ...` */
  method AppendMaterialPairs(files: seq<Attachment>, ms: seq<Material>, title: string)
    returns (out: seq<Attachment>)
    ensures out == files + MaterialsPairs(ms, title)
  {
    out := files;
    var k := 0;
    while k < |ms|
      invariant 0 <= k <= |ms|
      invariant out == files + MaterialsPairs(ms[..k], title)
    {
      var mat := ms[k];
      var df := mat.driveFile;
      if df.Some? && SharedDriveFileTruthy(df.value) && df.value.driveFile.Some? {
        var inner := df.value.driveFile.value;
        var fileId := inner.id;
        if Truthy(fileId) {
          out := out + [Attachment(fileId.value, inner.title.GetOr(title))];
        }
      }
      assert ms[..k + 1][..k] == ms[..k];
      k := k + 1;
    }
    assert ms[..k] == ms;
  }

  lemma {:induction false} RecordsPairsAppend(a: seq<Record>, b: seq<Record>, fallback: string)
    ensures RecordsPairs(a + b, fallback) == RecordsPairs(a, fallback) + RecordsPairs(b, fallback)
    decreases |b|
  {
    if b == [] {
      assert a + b == a;
    } else {
      var init := b[..|b| - 1];
      var last := b[|b| - 1];
      assert (a + b)[..|a + b| - 1] == a + init && (a + b)[|a + b| - 1] == last;
      calc {
        RecordsPairs(a + b, fallback);
        RecordsPairs(a + init, fallback) + RecordPairs(last, fallback);
        { RecordsPairsAppend(a, init, fallback); }
        (RecordsPairs(a, fallback) + RecordsPairs(init, fallback)) + RecordPairs(last, fallback);
        RecordsPairs(a, fallback) + (RecordsPairs(init, fallback) + RecordPairs(last, fallback));
        RecordsPairs(a, fallback) + RecordsPairs(b, fallback);
      }
    }
  }

  // ------------------------------------------------------------- properties

  /** The condition under which `list_course_files` lists a material,
      stated on the material alone. */
  predicate Qualifies(m: Material) {
    m.driveFile.Some? && m.driveFile.value.driveFile.Some? && Truthy(m.driveFile.value.driveFile.value.id)
  }

  /** A material yields a pair iff it qualifies; the pair carries the inner
      id, and the inner title if present, else the given title. */
  lemma MaterialPairSpec(m: Material, title: string)
    ensures MaterialPair(m, title).Some? <==> Qualifies(m)
    ensures Qualifies(m) ==>
      var inner := m.driveFile.value.driveFile.value;
      MaterialPair(m, title) == Some(Attachment(inner.id.value, inner.title.GetOr(title)))
  {
  }

  function CountQualifying(ms: seq<Material>): nat {
    if ms == [] then 0 else CountQualifying(ms[..|ms| - 1]) + (if Qualifies(ms[|ms| - 1]) then 1 else 0)
  }

  /** One pair per qualifying material, each with a non-empty id and a hint
      that is the inner title or the record-level title. */
  lemma {:induction false} MaterialsPairsSpec(ms: seq<Material>, title: string)
    ensures |MaterialsPairs(ms, title)| == CountQualifying(ms)
    ensures forall a | a in MaterialsPairs(ms, title) :: a.fileId != ""
    ensures forall a | a in MaterialsPairs(ms, title) ::
      exists k | 0 <= k < |ms| :: (Qualifies(ms[k]) &&
        var inner := ms[k].driveFile.value.driveFile.value;
        a == Attachment(inner.id.value, inner.title.GetOr(title)))
  {
    if ms != [] {
      var init := ms[..|ms| - 1];
      MaterialsPairsSpec(init, title);
      MaterialPairSpec(ms[|ms| - 1], title);
      forall a | a in MaterialsPairs(ms, title)
        ensures exists k | 0 <= k < |ms| :: (Qualifies(ms[k]) &&
          var inner := ms[k].driveFile.value.driveFile.value;
          a == Attachment(inner.id.value, inner.title.GetOr(title)))
      {
        if a in MaterialsPairs(init, title) {
          var k :| 0 <= k < |init| && (Qualifies(init[k]) &&
            var inner := init[k].driveFile.value.driveFile.value;
            a == Attachment(inner.id.value, inner.title.GetOr(title)));
          assert ms[k] == init[k];
        } else {
          assert Qualifies(ms[|ms| - 1]);
        }
      }
    }
  }

  /** Every id `list_course_files` returns is non-empty. */
  lemma {:induction false} CourseFilesIdsNonEmpty(classroom: Classroom, courseId: string)
    requires CourseFiles(classroom, courseId).Ok?
    ensures forall a | a in CourseFiles(classroom, courseId).value :: a.fileId != ""
  {
    var work := Paginate(CourseWorkPages(classroom, courseId)).items;
    var posts := Paginate(MaterialPages(classroom, courseId)).items;
    RecordsIdsNonEmpty(work, "Assignment");
    RecordsIdsNonEmpty(posts, "Material");
  }

  lemma {:induction false} RecordsIdsNonEmpty(rs: seq<Record>, fallback: string)
    ensures forall a | a in RecordsPairs(rs, fallback) :: a.fileId != ""
  {
    if rs != [] {
      RecordsIdsNonEmpty(rs[..|rs| - 1], fallback);
      var last := rs[|rs| - 1];
      MaterialsPairsSpec(Materials(last), last.title.GetOr(fallback));
    }
  }
}
