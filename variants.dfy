/**
 * Where the command-line downloader and the web application, which list
 * and fetch the same Classroom and Drive data, behave alike and where
 * they part ways.
 */
module Variants {
  import opened Wrappers
  import opened GoogleApi
  import Text
  import FileNames
  import CliListing
  import AppClassroom
  import AppDrive

  /** Both programs carry the same table of native types. */
  lemma ExportTablesAgree()
    ensures FileNames.GoogleDocTypes == AppDrive.GoogleExports
  {
  }

  /** On one material the two extractors agree up to the id and hint
      rules: whatever the command line keeps, the web application keeps
      with the same id; the web application fails only on materials the
      command line drops; and a web pair with a non-empty id is also a
      command-line pair, differing at most in the fallback hint. */
  lemma MaterialExtractorsAgree(m: Material, title: string)
    ensures CliListing.MaterialPair(m, title).Some? ==>
      AppClassroom.MaterialPair(m).Ok? && AppClassroom.MaterialPair(m).value.Some? &&
      AppClassroom.MaterialPair(m).value.value.fileId == CliListing.MaterialPair(m, title).value.fileId
    ensures AppClassroom.MaterialPair(m).Err? ==> CliListing.MaterialPair(m, title).None?
    ensures AppClassroom.MaterialPair(m) == Ok(None) ==> CliListing.MaterialPair(m, title).None?
    ensures AppClassroom.MaterialPair(m).Ok? && AppClassroom.MaterialPair(m).value.Some? &&
            AppClassroom.MaterialPair(m).value.value.fileId != "" ==>
      CliListing.MaterialPair(m, title).Some? &&
      CliListing.MaterialPair(m, title).value.fileId == AppClassroom.MaterialPair(m).value.value.fileId
    ensures AppClassroom.MaterialPair(m).Ok? && AppClassroom.MaterialPair(m).value.Some? &&
            AppClassroom.InnerDriveFile(m).value.title.Some? ==>
      CliListing.MaterialPair(m, title).None? ||
      CliListing.MaterialPair(m, title) == AppClassroom.MaterialPair(m).value
  {
  }

  /** A material whose Drive file has an empty id: the command line drops
      it, the web application lists it. */
  lemma EmptyIdContrast()
    ensures var m := Material(Some(SharedDriveFile(Some(DriveFile(Some(""), Some("notes"), None)), None)));
      CliListing.MaterialPair(m, "Assignment") == None &&
      AppClassroom.MaterialPair(m) == Ok(Some(Attachment("", "notes")))
  {
  }

  /** A document already named "a.pdf": the command line keeps the name,
      the web application appends the extension again. */
  lemma ExtensionContrast()
    ensures FileNames.EnsureExtension("a.pdf", Some("application/vnd.google-apps.document")) == "a.pdf"
    ensures AppDrive.RequestAndName("f", "application/vnd.google-apps.document", "a.pdf").1 == "a.pdf.pdf"
  {
    var name := "a.pdf";
    assert Text.Lower(name) == name by {
      assert forall i | 0 <= i < |name| :: !('A' <= name[i] <= 'Z');
    }
    assert Text.EndsWith(name, ".pdf");
  }
}
