/**
 * The `gen()` generator inside the `download` route: for each selected
 * course id, list its files and yield `(f"{cid}/{name}", data)` for each,
 * the name and data coming from `download_file_bytes`.  A generator is a
 * value here: the entries it yields, and the exception that ended it, if any.
 */
module AppMain {
  import opened Wrappers
  import opened GoogleApi
  import AppClassroom
  import AppDrive

  datatype Entry = Entry(path: string, data: seq<byte>)

  /** The entries yielded, and the failure that stopped the generator. */
  datatype Generated = Generated(entries: seq<Entry>, failure: Option<Error>)

  /** `f"{cid}/{name}"` */
  function EntryPath(cid: string, name: string): string {
    cid + "/" + name
  }

  /** The inner loop `for fid, _ in files` of one course. */
  function CourseEntries(drive: Drive, cid: string, files: seq<Attachment>): Generated {
    if files == [] then Generated([], None)
    else
      var g := CourseEntries(drive, cid, files[..|files| - 1]);
      if g.failure.Some? then g
      else match AppDrive.FetchFile(drive, files[|files| - 1].fileId).result
        case Err(e) => Generated(g.entries, Some(e))
        case Ok(f) => Generated(g.entries + [Entry(EntryPath(cid, f.name), f.data)], None)
  }

  /** `gen()` over `course_ids`. */
  function Gen(classroom: Classroom, drive: Drive, courseIds: seq<string>): Generated {
    if courseIds == [] then Generated([], None)
    else NextCourse(classroom, drive, Gen(classroom, drive, courseIds[..|courseIds| - 1]), courseIds[|courseIds| - 1])
  }

  /** One turn of `for cid in course_ids`, after what was generated so far. */
  function NextCourse(classroom: Classroom, drive: Drive, g: Generated, cid: string): Generated {
    if g.failure.Some? then g
    else match AppClassroom.CourseFiles(classroom, cid)
      case Err(e) => Generated(g.entries, Some(e))
      case Ok(files) =>
        var c := CourseEntries(drive, cid, files);
        Generated(g.entries + c.entries, c.failure)
  }

  lemma NextCourseShift(classroom: Classroom, drive: Drive, earlier: seq<Entry>, g: Generated, cid: string)
    ensures var n := NextCourse(classroom, drive, g, cid);
      NextCourse(classroom, drive, Generated(earlier + g.entries, g.failure), cid) == Generated(earlier + n.entries, n.failure)
  {
    if g.failure.None? && AppClassroom.CourseFiles(classroom, cid).Ok? {
      var c := CourseEntries(drive, cid, AppClassroom.CourseFiles(classroom, cid).value);
      assert (earlier + g.entries) + c.entries == earlier + (g.entries + c.entries);
    }
  }

  /** Within a course: entry i comes from listed pair i, at path
      `cid/name` with the name and bytes `download_file_bytes` returns,
      until the first failing download, which ends the generator; without a
      failure there is exactly one entry per listed pair. */
  lemma {:induction false} CourseEntriesSpec(drive: Drive, cid: string, files: seq<Attachment>)
    ensures var g := CourseEntries(drive, cid, files);
      |g.entries| <= |files| &&
      (g.failure.None? <==> |g.entries| == |files|) &&
      (forall i | 0 <= i < |g.entries| ::
        AppDrive.FetchFile(drive, files[i].fileId).result.Ok? &&
        var f := AppDrive.FetchFile(drive, files[i].fileId).result.value;
        g.entries[i] == Entry(EntryPath(cid, f.name), f.data)) &&
      (g.failure.Some? ==> AppDrive.FetchFile(drive, files[|g.entries|].fileId).result == Err(g.failure.value))
  {
    if files != [] {
      var init := files[..|files| - 1];
      CourseEntriesSpec(drive, cid, init);
      assert forall i | 0 <= i < |init| :: files[i] == init[i];
    }
  }

  /** The title hint is discarded: lists with the same file ids yield the
      same entries. */
  lemma {:induction false} CourseEntriesIgnoreHints(drive: Drive, cid: string, files: seq<Attachment>, others: seq<Attachment>)
    requires |files| == |others|
    requires forall i | 0 <= i < |files| :: files[i].fileId == others[i].fileId
    ensures CourseEntries(drive, cid, files) == CourseEntries(drive, cid, others)
  {
    if files != [] {
      CourseEntriesIgnoreHints(drive, cid, files[..|files| - 1], others[..|others| - 1]);
    }
  }

  /** Course by course: the generator over `a + b` yields the entries for
      `a`, and, only when `a` ran without failure, then those for `b`. */
  lemma {:induction false} GenAppend(classroom: Classroom, drive: Drive, a: seq<string>, b: seq<string>)
    ensures var ga := Gen(classroom, drive, a);
      var gb := Gen(classroom, drive, b);
      Gen(classroom, drive, a + b) ==
        if ga.failure.Some? then ga else Generated(ga.entries + gb.entries, gb.failure)
    decreases |b|
  {
    var ga := Gen(classroom, drive, a);
    if b == [] {
      assert a + b == a;
      assert ga.entries + [] == ga.entries;
    } else {
      var init := b[..|b| - 1];
      var cid := b[|b| - 1];
      assert (a + b)[..|a + b| - 1] == a + init && (a + b)[|a + b| - 1] == cid;
      GenAppend(classroom, drive, a, init);
      var gi := Gen(classroom, drive, init);
      if ga.failure.None? {
        NextCourseShift(classroom, drive, ga.entries, gi, cid);
      }
    }
  }

  /** The number of pairs listed for the given courses. */
  function TotalPairs(classroom: Classroom, courseIds: seq<string>): nat {
    if courseIds == [] then 0
    else
      var listed := AppClassroom.CourseFiles(classroom, courseIds[|courseIds| - 1]);
      TotalPairs(classroom, courseIds[..|courseIds| - 1]) + (if listed.Ok? then |listed.value| else 0)
  }

  /** When nothing fails, every listing succeeded and the generator yields
      exactly as many entries as pairs were listed, summed over courses. */
  lemma {:induction false} GenCount(classroom: Classroom, drive: Drive, courseIds: seq<string>)
    requires Gen(classroom, drive, courseIds).failure.None?
    ensures forall cid | cid in courseIds :: AppClassroom.CourseFiles(classroom, cid).Ok?
    ensures |Gen(classroom, drive, courseIds).entries| == TotalPairs(classroom, courseIds)
  {
    if courseIds != [] {
      var init := courseIds[..|courseIds| - 1];
      var cid := courseIds[|courseIds| - 1];
      GenCount(classroom, drive, init);
      assert courseIds == init + [cid];
      CourseEntriesSpec(drive, cid, AppClassroom.CourseFiles(classroom, cid).value);
    }
  }
}
