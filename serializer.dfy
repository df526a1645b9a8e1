/**
 * The page generator's data side: the records it embeds as `fileData`, and
 * the page title it falls back to when none is given.
 */
module Serializer {
  import opened Text
  import opened Sizes
  import opened Records

  /**
   * One embedded record: the scanner's record with `size_formatted` renamed
   * `size` and `full_path` dropped (the modification time is not modelled).
   */
  datatype Record = Record(
    id: ItemId,
    name: string,
    path: string,
    size: SizeText,
    sizeBytes: nat,
    isDir: bool,
    level: nat,
    parentId: Option<ItemId>,
    children: seq<ItemId>,
    extension: string,
    iconClass: string)

  /** The embedded form of one scanner record. */
  function Project(x: Item): Record
  {
    Record(x.id, x.name, x.path, x.SizeFormatted(), x.sizeBytes, x.isDir, x.level, x.parentId,
           x.children, x.Extension(), x.IconClassName())
  }

  /** A scanner record read back from its embedded form and the path the projection drops. */
  function Restore(r: Record, fullPath: string): Item
  {
    Item(r.id, r.name, r.path, fullPath, r.sizeBytes, r.isDir, r.level, r.parentId, r.children)
  }

  /** The projection loses nothing but `full_path`: restoring it gives back the scanner record. */
  lemma RestoreProject(x: Item)
    ensures Restore(Project(x), x.fullPath) == x
    ensures Project(x).size == FormattedSize(x.sizeBytes)
  {
  }

  /** Two scanner records with the same embedded form differ at most in `full_path`. */
  lemma ProjectInjective(x: Item, y: Item)
    requires Project(x) == Project(y)
    ensures x.(fullPath := y.fullPath) == y
  {
    RestoreProject(x);
    RestoreProject(y);
  }

  /** The embedded records of a list: one per scanner record, in the same order. */
  function Serialized(items: seq<Item>): (data: seq<Record>)
    ensures |data| == |items|
    ensures forall k :: 0 <= k < |items| ==> data[k] == Project(items[k])
  {
    seq(|items|, k requires 0 <= k < |items| => Project(items[k]))
  }

  /** The loop that builds `js_data`. */
  method Serialize(items: seq<Item>) returns (data: seq<Record>)
    ensures data == Serialized(items)
  {
    data := [];
    var k := 0;
    while k < |items|
      invariant 0 <= k <= |items| && |data| == k
      invariant forall i :: 0 <= i < k ==> data[i] == Project(items[i])
    {
      data := data + [Project(items[k])];
      k := k + 1;
    }
  }

  // ---------------------------------------------------------------------------
  // The page title
  // ---------------------------------------------------------------------------

  /** `s.rstrip('/\\')`: drop trailing slashes and backslashes. */
  function StripSeparators(s: string): (r: string)
    ensures IsPrefix(r, s)
    ensures r == [] || (r[|r| - 1] != '/' && r[|r| - 1] != '\\')
    ensures forall i :: |r| <= i < |s| ==> s[i] == '/' || s[i] == '\\'
  {
    if s == [] || (s[|s| - 1] != '/' && s[|s| - 1] != '\\') then s
    else StripSeparators(s[..|s| - 1])
  }

  /** The index just after the last '/' of `s`, or 0 when there is none. */
  function AfterLastSlash(s: string): (i: nat)
    ensures i <= |s|
    ensures i > 0 ==> s[i - 1] == '/'
    ensures forall j :: i <= j < |s| ==> s[j] != '/'
  {
    if s == [] then 0
    else if s[|s| - 1] == '/' then |s|
    else AfterLastSlash(s[..|s| - 1])
  }

  /** `os.path.basename(s)` on a POSIX path: the part after the last '/'. */
  function Basename(s: string): string
  {
    s[AfterLastSlash(s)..]
  }

  /**
   * `title or os.path.basename(root_path.rstrip('/\\'))`, falling back to
   * `root_path` itself when that is empty. A title of `None` or "" is falsy.
   */
  function DefaultTitle(title: Option<string>, rootPath: string): (r: string)
    ensures title.Some? && title.value != [] ==> r == title.value
    ensures (title.None? || title.value == []) ==>
              r == rootPath || (r != [] && r == Basename(StripSeparators(rootPath)))
    ensures r == [] <==> (title.None? || title.value == []) && rootPath == []
  {
    if title.Some? && title.value != [] then title.value
    else
      var b := Basename(StripSeparators(rootPath));
      if b == [] then rootPath else b
  }

  /** Without a title the page is named after the last path component, or the path when it has none. */
  lemma {:induction false} DefaultTitleLastComponent(rootPath: string)
    ensures var r := DefaultTitle(None, rootPath);
      r == rootPath || (r != [] && '/' !in r && r[|r| - 1] != '\\')
  {
    var b := Basename(StripSeparators(rootPath));
    var s := StripSeparators(rootPath);
    var i := AfterLastSlash(s);
    if b != [] {
      assert b == s[i..];
      forall j | 0 <= j < |b| ensures b[j] != '/' {
        assert b[j] == s[i + j];
      }
      assert b[|b| - 1] == s[|s| - 1];
    }
  }

  lemma DefaultTitleExamples()
    ensures DefaultTitle(None, "/home/ann/") == "ann"
    ensures DefaultTitle(None, "/") == "/"
    ensures DefaultTitle(Some(""), "C:\\Data\\") == "C:\\Data"
    ensures DefaultTitle(Some("Archive"), "/tmp") == "Archive"
  {
    assert StripSeparators("/home/ann/") == "/home/ann";
    var p := "/home/ann";
    assert p[..8] == "/home/an" && p[..7] == "/home/a" && p[..6] == "/home/";
    assert "/home/an"[..7] == "/home/a" && "/home/a"[..6] == "/home/";
    assert AfterLastSlash("/home/") == 6;
    assert AfterLastSlash("/home/a") == 6;
    assert AfterLastSlash("/home/an") == 6;
    assert AfterLastSlash(p) == 6;
    assert Basename("/home/ann") == "/home/ann"[6..] == "ann";
    assert StripSeparators("/") == "";
    assert StripSeparators("C:\\Data\\") == "C:\\Data";
    assert AfterLastSlash("C:\\Data") == 0;
  }
}
