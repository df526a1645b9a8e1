/**
 * `get_file_icon_class` and the extension rule it shares with the scanner:
 * `os.path.splitext` on a base name, then lower-casing, then a lookup in a
 * fixed table of extensions with the default class "file".
 */
module Icons {
  import opened Text

  /** Index of the last '.' in `s`, if any. */
  function LastDot(s: string): (r: int)
    ensures -1 <= r < |s|
    ensures r >= 0 ==> s[r] == '.'
    ensures forall k :: r < k < |s| ==> s[k] != '.'
  {
    if s == [] then -1
    else if s[|s| - 1] == '.' then |s| - 1
    else LastDot(s[..|s| - 1])
  }

  /** Every character of `s` is a dot (vacuously true of the empty string). */
  predicate AllDots(s: string)
  {
    forall k :: 0 <= k < |s| ==> s[k] == '.'
  }

  /**
   * `os.path.splitext(name)` for a name without a path separator: the
   * extension runs from the last dot to the end, unless only dots precede
   * that dot (so ".bashrc" and "..a" have no extension).
   */
  function SplitExt(name: string): (r: (string, string))
    ensures r.0 + r.1 == name
    ensures r.1 == [] || (r.1[0] == '.' && forall k :: 1 <= k < |r.1| ==> r.1[k] != '.')
    ensures r.1 != [] ==> !AllDots(r.0)
    ensures r.1 == [] ==> forall k :: 0 <= k < |name| && name[k] == '.' ==> AllDots(name[..k])
  {
    var d := LastDot(name);
    if d < 0 || AllDots(name[..d]) then
      (name, [])
    else
      assert name[..d] + name[d..] == name;
      (name[..d], name[d..])
  }

  /** The `extension` field of a file record: the split-off extension, lower-cased. */
  function FileExtension(name: string): (r: string)
    ensures |r| == |SplitExt(name).1|
  {
    Lower(SplitExt(name).1)
  }

  /**
   * The extension table of `get_file_icon_class`, one set of extensions per
   * icon class (the source writes it as one dictionary literal).
   */
  const PdfExts: set<string> := {".pdf"}
  const WordExts: set<string> := {".doc", ".docx"}
  const TextExts: set<string> := {".txt", ".rtf", ".odt", ".pages"}
  const ExcelExts: set<string> := {".xls", ".xlsx", ".csv", ".numbers"}
  const PowerpointExts: set<string> := {".ppt", ".pptx", ".key"}
  const ImageExts: set<string> :=
    {".jpg", ".jpeg", ".png", ".gif", ".bmp", ".tiff", ".svg", ".ico", ".webp", ".heic"}
  const VideoExts: set<string> := {".mp4", ".avi", ".mov", ".mkv", ".wmv", ".flv", ".webm", ".m4v"}
  const AudioExts: set<string> := {".mp3", ".wav", ".m4a", ".flac", ".aac", ".ogg", ".wma"}
  const ArchiveExts: set<string> := {".zip", ".rar", ".7z", ".tar", ".gz", ".bz2", ".dmg"}
  const CodeExts: set<string> :=
    {".py", ".js", ".html", ".css", ".php", ".java", ".cpp", ".c", ".swift", ".go", ".rb", ".json"}
  const ExecutableExts: set<string> := {".exe", ".app", ".deb", ".rpm", ".msi"}

  /** Every extension the table knows. */
  const KnownExts: set<string> :=
    PdfExts + WordExts + TextExts + ExcelExts + PowerpointExts + ImageExts + VideoExts
    + AudioExts + ArchiveExts + CodeExts + ExecutableExts

  /** The class names the table can produce, plus the default. */
  const IconClasses: set<string> := {
    "pdf", "word", "text", "excel", "powerpoint", "image", "video", "audio",
    "archive", "code", "executable", "file"
  }

  /** Dictionary lookup with the default "file". */
  function IconFor(ext: string): string
  {
    if ext in PdfExts then "pdf"
    else if ext in WordExts then "word"
    else if ext in TextExts then "text"
    else if ext in ExcelExts then "excel"
    else if ext in PowerpointExts then "powerpoint"
    else if ext in ImageExts then "image"
    else if ext in VideoExts then "video"
    else if ext in AudioExts then "audio"
    else if ext in ArchiveExts then "archive"
    else if ext in CodeExts then "code"
    else if ext in ExecutableExts then "executable"
    else "file"
  }

  /** The table gives every extension it knows a class of its own, and every other one the default. */
  lemma IconForTable(ext: string)
    ensures IconFor(ext) in IconClasses
    ensures ext in KnownExts <==> IconFor(ext) != "file"
  {
    var r := IconFor(ext);
    if ext in PdfExts { assert r == "pdf"; }
    else if ext in WordExts { assert r == "word"; }
    else if ext in TextExts { assert r == "text"; }
    else if ext in ExcelExts { assert r == "excel"; }
    else if ext in PowerpointExts { assert r == "powerpoint"; }
    else if ext in ImageExts { assert r == "image"; }
    else if ext in VideoExts { assert r == "video"; }
    else if ext in AudioExts { assert r == "audio"; }
    else if ext in ArchiveExts { assert r == "archive"; }
    else if ext in CodeExts { assert r == "code"; }
    else if ext in ExecutableExts { assert r == "executable"; }
    else { assert r == "file" && ext !in KnownExts; }
  }

  /**
   * `get_file_icon_class(name, is_dir)`: "folder" for a directory, otherwise
   * the table entry for the lower-cased extension, or "file" when there is none.
   */
  function IconClass(name: string, isDir: bool): (r: string)
    ensures isDir ==> r == "folder"
    ensures r == "folder" <==> isDir
  {
    if isDir then "folder"
    else
      IconFor(FileExtension(name))
  }

  /** A name with no extension, such as a dot-file, always gets the generic class. */
  lemma NoExtensionIsGeneric(name: string)
    requires SplitExt(name).1 == []
    ensures IconClass(name, false) == "file"
  {
    assert FileExtension(name) == [];
  }

  /** The last dot is the one with no dot after it. */
  lemma LastDotAt(s: string, d: int)
    requires -1 <= d < |s|
    requires d >= 0 ==> s[d] == '.'
    requires forall k :: d < k < |s| ==> s[k] != '.'
    ensures LastDot(s) == d
  {
  }

  /** Worked cases of the `splitext` rule. */
  lemma SplitExtExamples()
    ensures SplitExt(".bashrc") == (".bashrc", "")
    ensures SplitExt("archive.tar.gz") == ("archive.tar", ".gz")
    ensures SplitExt("..a") == ("..a", "")
  {
    var s1 := ".bashrc";
    LastDotAt(s1, 0);
    assert AllDots(s1[..0]);
    var s2 := "archive.tar.gz";
    LastDotAt(s2, 11);
    assert s2[0] == 'a';
    assert s2[..11] == "archive.tar" && s2[11..] == ".gz";
    var s3 := "..a";
    LastDotAt(s3, 1);
    assert s3[..1] == ".";
  }

  /** An upper-case extension gets the same class as its lower-case spelling. */
  lemma IconClassExample()
    ensures IconClass("Photo.JPG", false) == "image"
  {
    JpgExtension();
    JpgIsImage();
  }

  lemma JpgExtension()
    ensures FileExtension("Photo.JPG") == ".jpg"
  {
    var s := "Photo.JPG";
    LastDotAt(s, 5);
    assert s[0] == 'P';
    assert SplitExt(s).1 == ".JPG";
    assert Lower(".JPG") == ".jpg";
  }

  lemma JpgIsImage()
    ensures IconFor(".jpg") == "image"
  {
    assert ".jpg" in ImageExts;
    assert ".jpg"[1] == 'j';
  }
}
