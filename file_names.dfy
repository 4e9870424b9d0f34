/**
 * The naming helpers of the command-line downloader: `safe_filename`,
 * the `GOOGLE_DOC_TYPES` export table and `ensure_extension`.
 */
module FileNames {
  import opened Wrappers
  import opened Text
  import opened GoogleApi

  const MaxNameLength: nat := 80

  /** The characters `[\w.\- ]` that the substitution keeps. */
  predicate IsSafeChar(c: char) {
    IsWordChar(c) || c == '.' || c == '-' || c == ' '
  }

  /** `re.sub(r"[^\w.\- ]+", "_", s)`: every maximal run of other
      characters becomes one `_`.  `inRun` says that the character before
      `s` was already replaced. */
  function ReplaceUnsafe(s: string, inRun: bool): (r: string)
    ensures |r| <= |s|
    ensures forall i | 0 <= i < |r| :: IsSafeChar(r[i])
  {
    if s == [] then []
    else if IsSafeChar(s[0]) then [s[0]] + ReplaceUnsafe(s[1..], false)
    else if inRun then ReplaceUnsafe(s[1..], true)
    else ['_'] + ReplaceUnsafe(s[1..], true)
  }

  /** The name that is substituted: the empty name is replaced by "unnamed". */
  function Named(name: string): (r: string)
    ensures r != []
  {
    if name == "" then "unnamed" else name
  }

  /** `name.strip()[:80]`, or "file" when that is empty, on text that is
      already made of safe characters. */
  function Shorten(replaced: string): (r: string)
    requires forall i | 0 <= i < |replaced| :: IsSafeChar(replaced[i])
    ensures 1 <= |r| <= MaxNameLength
    ensures forall i | 0 <= i < |r| :: IsSafeChar(r[i])
    ensures r[0] != ' '
  {
    var stripped := Strip(replaced);
    assert forall i | 0 <= i < |stripped| :: IsSafeChar(stripped[i]) by {
      var k := LeadingWhitespace(replaced);
      StripIsSlice(replaced);
      SliceIsSafe(replaced, k, k + |stripped|);
    }
    var cut := Take(stripped, MaxNameLength);
    assert forall i | 0 <= i < |cut| :: cut[i] == stripped[i];
    if cut == "" then "file" else cut
  }

  /** A slice of text made of safe characters is made of safe characters. */
  lemma SliceIsSafe(s: string, lo: nat, hi: nat)
    requires lo <= hi <= |s|
    requires forall i | 0 <= i < |s| :: IsSafeChar(s[i])
    ensures forall i | 0 <= i < hi - lo :: IsSafeChar(s[lo..hi][i])
  {
    forall i | 0 <= i < hi - lo
      ensures IsSafeChar(s[lo..hi][i])
    {
      assert s[lo..hi][i] == s[lo + i];
    }
  }

  /** `safe_filename(name)`: never empty, at most 80 characters, only
      characters of `[\w.\- ]`, and never a leading space. */
  function SafeFilename(name: string): (r: string)
    ensures 1 <= |r| <= MaxNameLength
    ensures forall i | 0 <= i < |r| :: IsSafeChar(r[i])
    ensures r[0] != ' '
  {
    Shorten(ReplaceUnsafe(Named(name), false))
  }

  lemma {:induction false} ReplaceUnsafeKeepsSafe(s: string, inRun: bool)
    requires forall i | 0 <= i < |s| :: IsSafeChar(s[i])
    requires s != [] || !inRun
    ensures ReplaceUnsafe(s, inRun) == s
    decreases |s|
  {
    if s != [] {
      ReplaceUnsafeKeepsSafe(s[1..], false);
    }
  }

  lemma {:induction false} ReplaceUnsafeSkipsRun(w: string, v: string)
    requires forall i | 0 <= i < |w| :: !IsSafeChar(w[i])
    ensures ReplaceUnsafe(w + v, true) == ReplaceUnsafe(v, true)
    decreases |w|
  {
    if w != [] {
      assert (w + v)[0] == w[0] && (w + v)[1..] == w[1..] + v;
      ReplaceUnsafeSkipsRun(w[1..], v);
    } else {
      assert w + v == v;
    }
  }

  /** A maximal run of unsafe characters, between safe text and a safe
      character (or the end), is replaced by exactly one `_`. */
  lemma {:induction false} ReplaceUnsafeCollapsesRun(u: string, w: string, v: string)
    requires forall i | 0 <= i < |u| :: IsSafeChar(u[i])
    requires w != [] && forall i | 0 <= i < |w| :: !IsSafeChar(w[i])
    requires v == [] || IsSafeChar(v[0])
    ensures ReplaceUnsafe(u + w + v, false) == u + "_" + ReplaceUnsafe(v, false)
    decreases |u|
  {
    var x := u + w + v;
    if u == [] {
      assert x[0] == w[0] && x[1..] == w[1..] + v;
      assert ReplaceUnsafe(x, false) == "_" + ReplaceUnsafe(x[1..], true);
      ReplaceUnsafeSkipsRun(w[1..], v);
      assert ReplaceUnsafe(v, true) == ReplaceUnsafe(v, false);
    } else {
      assert x[0] == u[0] && x[1..] == u[1..] + w + v;
      assert ReplaceUnsafe(x, false) == [u[0]] + ReplaceUnsafe(x[1..], false);
      ReplaceUnsafeCollapsesRun(u[1..], w, v);
      assert u + "_" + ReplaceUnsafe(v, false) == [u[0]] + (u[1..] + "_" + ReplaceUnsafe(v, false));
    }
  }

  /** A name that is already safe, short enough and unpadded is kept. */
  lemma SafeFilenameKeepsCleanNames(name: string)
    requires 1 <= |name| <= MaxNameLength
    requires forall i | 0 <= i < |name| :: IsSafeChar(name[i])
    requires name[0] != ' ' && name[|name| - 1] != ' '
    ensures SafeFilename(name) == name
  {
    ReplaceUnsafeKeepsSafe(name, false);
    ShortenKeepsCleanText(name);
  }

  lemma ShortenKeepsCleanText(s: string)
    requires 1 <= |s| <= MaxNameLength
    requires forall i | 0 <= i < |s| :: IsSafeChar(s[i])
    requires s[0] != ' ' && s[|s| - 1] != ' '
    ensures Shorten(s) == s
  {
    assert !IsWhitespace(s[0]) && !IsWhitespace(s[|s| - 1]);
    assert Strip(s) == s;
  }

  /** The empty name becomes "unnamed". */
  lemma SafeFilenameOfEmpty()
    ensures SafeFilename("") == "unnamed"
  {
    var n := Named("");
    assert n == "unnamed";
    assert forall i | 0 <= i < |n| :: IsSafeChar(n[i]);
    SafeFilenameKeepsCleanNames(n);
  }

  /** The names "." and ".." are safe as they stand and come back
      unchanged, so a destination can name the course directory itself or
      its parent. */
  lemma SafeFilenameKeepsDotNames()
    ensures SafeFilename(".") == "."
    ensures SafeFilename("..") == ".."
  {
    var one, two := ".", "..";
    assert forall i | 0 <= i < |one| :: IsSafeChar(one[i]);
    assert forall i | 0 <= i < |two| :: IsSafeChar(two[i]);
    SafeFilenameKeepsCleanNames(one);
    SafeFilenameKeepsCleanNames(two);
  }

  /** A non-empty name made only of spaces becomes "file". */
  lemma SafeFilenameOfSpaces(name: string)
    requires name != [] && forall i | 0 <= i < |name| :: name[i] == ' '
    ensures SafeFilename(name) == "file"
  {
    ReplaceUnsafeKeepsSafe(name, false);
    assert Strip(name) == [];
  }

  /** `Shorten` cuts the stripped text to its first 80 characters and
      gives "file" only when nothing is left after stripping. */
  lemma {:induction false} ShortenTruncates(replaced: string)
    requires forall i | 0 <= i < |replaced| :: IsSafeChar(replaced[i])
    ensures Strip(replaced) != [] ==> Shorten(replaced) == Take(Strip(replaced), MaxNameLength)
    ensures Strip(replaced) == [] ==> Shorten(replaced) == "file"
  {
    assert Take(Strip(replaced), MaxNameLength) == [] <==> Strip(replaced) == [];
  }

  /** `safe_filename` is the stripped substitution cut to its first 80
      characters, and "file" only when nothing is left after stripping. */
  lemma {:induction false} SafeFilenameTruncates(name: string)
    ensures Strip(ReplaceUnsafe(Named(name), false)) != [] ==>
      SafeFilename(name) == Take(Strip(ReplaceUnsafe(Named(name), false)), MaxNameLength)
    ensures Strip(ReplaceUnsafe(Named(name), false)) == [] ==> SafeFilename(name) == "file"
  {
    ShortenTruncates(ReplaceUnsafe(Named(name), false));
  }

  /** A name that is at least 80 characters long once substituted and
      stripped is cut to exactly its first 80. */
  lemma {:induction false} SafeFilenameOfLongName(name: string)
    ensures MaxNameLength <= |Strip(ReplaceUnsafe(Named(name), false))| ==>
      SafeFilename(name) == Strip(ReplaceUnsafe(Named(name), false))[..MaxNameLength] &&
      |SafeFilename(name)| == MaxNameLength
  {
    var replaced := ReplaceUnsafe(Named(name), false);
    if MaxNameLength <= |Strip(replaced)| {
      ShortenOfLongText(replaced);
    }
  }

  lemma {:induction false} ShortenOfLongText(replaced: string)
    requires forall i | 0 <= i < |replaced| :: IsSafeChar(replaced[i])
    requires MaxNameLength <= |Strip(replaced)|
    ensures Shorten(replaced) == Strip(replaced)[..MaxNameLength]
  {
    ShortenTruncates(replaced);
  }

  /** Truncation happens after stripping, so a result may end in a space,
      and sanitising twice can differ from sanitising once. */
  lemma SafeFilenameNotIdempotent()
    ensures exists name :: SafeFilename(SafeFilename(name)) != SafeFilename(name)
  {
    var a := seq(79, _ => 'a');
    var name := a + " b";
    assert forall i | 0 <= i < |name| :: IsSafeChar(name[i]);
    ReplaceUnsafeKeepsSafe(name, false);
    assert !IsWhitespace(name[0]) && !IsWhitespace(name[|name| - 1]);
    assert Strip(name) == name;
    var once := name[..80];
    assert once == a + " ";
    assert SafeFilename(name) == once;
    ReplaceUnsafeKeepsSafe(once, false);
    assert SafeFilename(once)[|SafeFilename(once)| - 1] != ' ';
  }

  /** `GOOGLE_DOC_TYPES`: native Google types and what they export to. */
  const GoogleDocTypes: map<string, ExportRule> := map[
    "application/vnd.google-apps.document" :=
      ExportRule("application/pdf", ".pdf"),
    "application/vnd.google-apps.presentation" :=
      ExportRule("application/vnd.openxmlformats-officedocument.presentationml.presentation", ".pptx"),
    "application/vnd.google-apps.spreadsheet" :=
      ExportRule("application/vnd.openxmlformats-officedocument.spreadsheetml.sheet", ".xlsx")
  ]

  /** `mime_type in GOOGLE_DOC_TYPES`, where the mime type may be None. */
  predicate IsDocType(mimeType: Option<string>) {
    mimeType.Some? && mimeType.value in GoogleDocTypes
  }

  /** `ensure_extension(name, mime_type)` */
  function EnsureExtension(name: string, mimeType: Option<string>): string {
    if IsDocType(mimeType) then
      var ext := GoogleDocTypes[mimeType.value].extension;
      if EndsWith(Lower(name), ext) then name else name + ext
    else name
  }

  lemma DocTypeExtensionsAreLowercase(mimeType: string)
    requires mimeType in GoogleDocTypes
    ensures Lower(GoogleDocTypes[mimeType].extension) == GoogleDocTypes[mimeType].extension
  {
  }

  /** For a native type the result ends, ignoring case, in the table's
      extension, which is appended only when the name lacks it; any other
      mime type (or none) leaves the name alone. */
  lemma EnsureExtensionSpec(name: string, mimeType: Option<string>)
    ensures !IsDocType(mimeType) ==> EnsureExtension(name, mimeType) == name
    ensures IsDocType(mimeType) ==>
      var ext := GoogleDocTypes[mimeType.value].extension;
      var r := EnsureExtension(name, mimeType);
      EndsWith(Lower(r), ext) &&
      (EndsWith(Lower(name), ext) ==> r == name) &&
      (!EndsWith(Lower(name), ext) ==> r == name + ext)
  {
    if IsDocType(mimeType) {
      var ext := GoogleDocTypes[mimeType.value].extension;
      if !EndsWith(Lower(name), ext) {
        LowerAppend(name, ext);
        DocTypeExtensionsAreLowercase(mimeType.value);
        assert Lower(name + ext)[|name + ext| - |ext|..] == Lower(ext);
      }
    }
  }

  /** Applying `ensure_extension` twice is the same as once. */
  lemma EnsureExtensionIdempotent(name: string, mimeType: Option<string>)
    ensures EnsureExtension(EnsureExtension(name, mimeType), mimeType) == EnsureExtension(name, mimeType)
  {
    EnsureExtensionSpec(name, mimeType);
  }
}
