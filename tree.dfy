/**
 * The filesystem as the scanner sees it, replaced by an in-memory tree.
 *
 * A directory holds its entries in the order `os.listdir` returns them; a
 * file has a byte size. The module also holds the name rules the scanner
 * applies (hidden and temporary names), the recursive folder size of
 * `calculate_folder_size`, the top-down walk order of `os.walk`, the
 * progress pre-count, and the case-insensitive stable sort of
 * `list.sort(key=str.lower)`.
 */
module FileTree {
  import opened Text

  datatype Entry = Dir(name: string, entries: seq<Entry>) | File(name: string, size: nat)

  /** Names starting with '~' or '$' (lock and temporary files). */
  predicate IsTemp(name: string)
  {
    StartsWith(name, '~') || StartsWith(name, '$')
  }

  /** Names starting with '.'. */
  predicate IsHidden(name: string)
  {
    StartsWith(name, '.')
  }

  /**
   * The listing filter of `process_directory`: with `includeHidden` nothing is
   * filtered; without it, names starting with '.', '~' or '$' are dropped.
   */
  predicate Listed(name: string, includeHidden: bool)
  {
    includeHidden || !(IsHidden(name) || IsTemp(name))
  }

  // ---------------------------------------------------------------------------
  // Folder size (`calculate_folder_size`)
  // ---------------------------------------------------------------------------

  /**
   * The size of a directory: every file of the whole subtree whose own name
   * does not start with '~' or '$', whatever the hidden flag. A file path
   * given to `os.walk` yields nothing, so a file's folder size is 0.
   */
  function FolderSize(e: Entry): nat
  {
    match e
    case File(_, _) => 0
    case Dir(_, es) => EntriesSize(es)
  }

  /** The contribution of a list of entries to their parent's folder size. */
  function EntriesSize(es: seq<Entry>): nat
  {
    if es == [] then 0
    else
      EntriesSize(es[..|es| - 1])
      + match es[|es| - 1]
        case File(name, size) => (if IsTemp(name) then 0 else size)
        case Dir(_, _) => FolderSize(es[|es| - 1])
  }

  /** The non-directory entries of a listing, in listing order (the `files` of one `os.walk` step). */
  function FilesOf(es: seq<Entry>): (r: seq<Entry>)
    ensures forall x :: x in r ==> x in es && x.File?
    ensures forall x :: x in es && x.File? ==> x in r
    ensures |r| <= |es|
  {
    if es == [] then []
    else FilesOf(es[..|es| - 1]) + (if es[|es| - 1].File? then [es[|es| - 1]] else [])
  }

  /** The directory entries of a listing, in listing order (the `dirs` of one `os.walk` step). */
  function DirsOf(es: seq<Entry>): (r: seq<Entry>)
    ensures forall x :: x in r ==> x in es && x.Dir?
    ensures forall x :: x in es && x.Dir? ==> x in r
    ensures |r| <= |es|
  {
    if es == [] then []
    else DirsOf(es[..|es| - 1]) + (if es[|es| - 1].Dir? then [es[|es| - 1]] else [])
  }

  /**
   * The file lists `os.walk(e)` yields, top-down: the directory's own files
   * first, then the walks of its subdirectories in listing order.
   */
  function Walk(e: Entry): seq<seq<Entry>>
  {
    match e
    case File(_, _) => []
    case Dir(_, es) => [FilesOf(es)] + WalkDirs(es)
  }

  /** The walks of the subdirectories among `es`, in listing order. */
  function WalkDirs(es: seq<Entry>): seq<seq<Entry>>
  {
    if es == [] then []
    else WalkDirs(es[..|es| - 1]) + (if es[|es| - 1].Dir? then Walk(es[|es| - 1]) else [])
  }

  /** The bytes one `os.walk` step adds: its files not named '~…' or '$…'. */
  function StepSize(files: seq<Entry>): nat
  {
    if files == [] then 0
    else
      StepSize(files[..|files| - 1])
      + (var f := files[|files| - 1]; if f.File? && !IsTemp(f.name) then f.size else 0)
  }

  /** The total the walk loop accumulates. */
  function WalkSize(steps: seq<seq<Entry>>): nat
  {
    if steps == [] then 0 else WalkSize(steps[..|steps| - 1]) + StepSize(steps[|steps| - 1])
  }

  lemma {:induction false} WalkSizeAppend(a: seq<seq<Entry>>, b: seq<seq<Entry>>)
    ensures WalkSize(a + b) == WalkSize(a) + WalkSize(b)
    decreases |b|
  {
    if b != [] {
      assert (a + b)[..|a + b| - 1] == a + b[..|b| - 1];
      assert (a + b)[|a + b| - 1] == b[|b| - 1];
      WalkSizeAppend(a, b[..|b| - 1]);
    } else {
      assert a + b == a;
    }
  }

  /** The part of `EntriesSize` that comes from files directly in the listing. */
  function DirectFilesSize(es: seq<Entry>): nat
  {
    if es == [] then 0
    else
      DirectFilesSize(es[..|es| - 1])
      + (var e := es[|es| - 1]; if e.File? && !IsTemp(e.name) then e.size else 0)
  }

  /** The part of `EntriesSize` that comes from subdirectories. */
  function SubdirsSize(es: seq<Entry>): nat
  {
    if es == [] then 0
    else SubdirsSize(es[..|es| - 1]) + (var e := es[|es| - 1]; if e.Dir? then FolderSize(e) else 0)
  }

  lemma {:induction false} EntriesSizeSplit(es: seq<Entry>)
    ensures EntriesSize(es) == DirectFilesSize(es) + SubdirsSize(es)
  {
    if es != [] {
      EntriesSizeSplit(es[..|es| - 1]);
    }
  }

  lemma {:induction false} StepSizeOfFiles(es: seq<Entry>)
    ensures StepSize(FilesOf(es)) == DirectFilesSize(es)
  {
    if es != [] {
      var init := es[..|es| - 1];
      StepSizeOfFiles(init);
      var last := es[|es| - 1];
      var fs := FilesOf(es);
      if last.File? {
        assert fs == FilesOf(init) + [last];
        assert fs[..|fs| - 1] == FilesOf(init);
        assert fs[|fs| - 1] == last;
      } else {
        assert fs == FilesOf(init) + [];
        assert fs == FilesOf(init);
      }
    }
  }

  lemma {:induction false} WalkDirsSize(es: seq<Entry>)
    ensures WalkSize(WalkDirs(es)) == SubdirsSize(es)
    decreases es
  {
    if es != [] {
      var init := es[..|es| - 1];
      var last := es[|es| - 1];
      WalkDirsSize(init);
      if last.Dir? {
        WalkSizeAppend(WalkDirs(init), Walk(last));
        WalkFolderSize(last);
      } else {
        assert WalkDirs(es) == WalkDirs(init) + [] == WalkDirs(init);
      }
    }
  }

  /**
   * Summing the files the walk yields, skipping '~'/'$' names, is the
   * recursive folder size: the files directly inside plus the folder sizes
   * of the subdirectories.
   */
  lemma {:induction false} WalkFolderSize(e: Entry)
    ensures WalkSize(Walk(e)) == FolderSize(e)
    decreases e
  {
    match e
    case File(_, _) =>
    case Dir(_, es) =>
      WalkSizeAppend([FilesOf(es)], WalkDirs(es));
      assert WalkSize([FilesOf(es)]) == StepSize(FilesOf(es)) by {
        assert [FilesOf(es)][..0] == [];
      }
      StepSizeOfFiles(es);
      WalkDirsSize(es);
      EntriesSizeSplit(es);
  }

  // ---------------------------------------------------------------------------
  // The listing of one directory in `process_directory`
  // ---------------------------------------------------------------------------

  /** Keep the entries whose name passes the listing filter, in listing order. */
  function ListedOf(es: seq<Entry>, includeHidden: bool): (r: seq<Entry>)
    ensures forall x :: x in r ==> x in es && Listed(x.name, includeHidden)
    ensures forall x :: x in es && Listed(x.name, includeHidden) ==> x in r
    ensures includeHidden ==> r == es
  {
    if es == [] then []
    else
      ListedOf(es[..|es| - 1], includeHidden)
      + (if Listed(es[|es| - 1].name, includeHidden) then [es[|es| - 1]] else [])
  }

  /** Names in non-decreasing order of their lower-cased spelling. */
  predicate SortedByName(s: seq<Entry>)
  {
    forall i, j :: 0 <= i < j < |s| ==> LowerLe(s[i].name, s[j].name)
  }

  /** Insert `x` after every element that does not sort strictly after it (keeps the sort stable). */
  function Insert(x: Entry, s: seq<Entry>): (r: seq<Entry>)
    ensures |r| == |s| + 1
  {
    if s == [] then [x]
    else if !LowerLe(s[0].name, x.name) then [x] + s
    else [s[0]] + Insert(x, s[1..])
  }

  lemma {:induction false} InsertMultiset(x: Entry, s: seq<Entry>)
    ensures multiset(Insert(x, s)) == multiset(s) + multiset{x}
  {
    if s != [] && LowerLe(s[0].name, x.name) {
      InsertMultiset(x, s[1..]);
      assert s == [s[0]] + s[1..];
    }
  }

  /** Every name in `s` sorts at or after `lo`. */
  predicate AllFrom(lo: string, s: seq<Entry>)
  {
    forall j :: 0 <= j < |s| ==> LowerLe(lo, s[j].name)
  }

  lemma {:induction false} InsertAllFrom(lo: string, x: Entry, s: seq<Entry>)
    requires AllFrom(lo, s) && LowerLe(lo, x.name)
    ensures AllFrom(lo, Insert(x, s))
  {
    if s != [] && LowerLe(s[0].name, x.name) {
      InsertAllFrom(lo, x, s[1..]);
      var r := Insert(x, s);
      forall j | 0 <= j < |r| ensures LowerLe(lo, r[j].name) {
        if j > 0 { assert r[j] == Insert(x, s[1..])[j - 1]; }
      }
    }
  }

  lemma SortedCons(x: Entry, s: seq<Entry>)
    requires SortedByName(s) && AllFrom(x.name, s)
    ensures SortedByName([x] + s)
  {
    var r := [x] + s;
    forall i, j | 0 <= i < j < |r| ensures LowerLe(r[i].name, r[j].name) {
      if i > 0 { assert r[i] == s[i - 1] && r[j] == s[j - 1]; }
      else { assert r[j] == s[j - 1]; }
    }
  }

  lemma {:induction false} InsertSorted(x: Entry, s: seq<Entry>)
    requires SortedByName(s)
    ensures SortedByName(Insert(x, s))
  {
    if s == [] {
    } else if !LowerLe(s[0].name, x.name) {
      LowerLeTotal(s[0].name, x.name);
      forall j | 0 <= j < |s| ensures LowerLe(x.name, s[j].name) {
        if j > 0 { LowerLeTransitive(x.name, s[0].name, s[j].name); }
      }
      SortedCons(x, s);
    } else {
      var tail := s[1..];
      assert SortedByName(tail) by {
        forall i, j | 0 <= i < j < |tail| ensures LowerLe(tail[i].name, tail[j].name) {
          assert tail[i] == s[i + 1] && tail[j] == s[j + 1];
        }
      }
      assert AllFrom(s[0].name, tail) by {
        forall j | 0 <= j < |tail| ensures LowerLe(s[0].name, tail[j].name) {
          assert tail[j] == s[j + 1];
        }
      }
      InsertSorted(x, tail);
      InsertAllFrom(s[0].name, x, tail);
      SortedCons(s[0], Insert(x, tail));
    }
  }

  /** `list.sort(key=str.lower)`: a stable sort on lower-cased names (insertion sort). */
  function SortByName(s: seq<Entry>): (r: seq<Entry>)
    ensures SortedByName(r)
    ensures multiset(r) == multiset(s)
  {
    if s == [] then []
    else
      var init, last := s[..|s| - 1], s[|s| - 1];
      var sorted := SortByName(init);
      InsertSorted(last, sorted);
      InsertMultiset(last, sorted);
      MultisetSnoc(s);
      Insert(last, sorted)
  }

  lemma MultisetSnoc(s: seq<Entry>)
    requires s != []
    ensures multiset(s) == multiset(s[..|s| - 1]) + multiset{s[|s| - 1]}
  {
    assert s == s[..|s| - 1] + [s[|s| - 1]];
  }

  /** The `dirs` list of `process_directory`: listed subdirectories, sorted by lower-cased name. */
  function ListedDirs(es: seq<Entry>, includeHidden: bool): (r: seq<Entry>)
    ensures SortedByName(r)
    ensures forall x :: x in r <==> x in es && x.Dir? && Listed(x.name, includeHidden)
  {
    var r := SortByName(DirsOf(ListedOf(es, includeHidden)));
    assert forall x :: x in r <==> x in multiset(r);
    r
  }

  /** The `files` list of `process_directory`: listed files, sorted by lower-cased name. */
  function ListedFiles(es: seq<Entry>, includeHidden: bool): (r: seq<Entry>)
    ensures SortedByName(r)
    ensures forall x :: x in r <==> x in es && x.File? && Listed(x.name, includeHidden)
  {
    var r := SortByName(FilesOf(ListedOf(es, includeHidden)));
    assert forall x :: x in r <==> x in multiset(r);
    r
  }

  // ---------------------------------------------------------------------------
  // The progress pre-count
  // ---------------------------------------------------------------------------

  /**
   * Whether the pre-count counts an entry (and, for a directory, walks into
   * it): directories are pruned only for a '.' name, files also for '~' and
   * '$' names; with `includeHidden` everything counts.
   */
  predicate Counted(e: Entry, includeHidden: bool)
  {
    if e.Dir? then includeHidden || !IsHidden(e.name) else Listed(e.name, includeHidden)
  }

  /** `total_items`: the denominator given to the progress callback. */
  function PreCount(e: Entry, includeHidden: bool): nat
  {
    match e
    case File(_, _) => 0
    case Dir(_, es) => PreCountAll(es, includeHidden)
  }

  /** What the entries of one walked directory add to `total_items`, their subtrees included. */
  function PreCountAll(es: seq<Entry>, includeHidden: bool): nat
  {
    if es == [] then 0
    else
      var e := es[|es| - 1];
      PreCountAll(es[..|es| - 1], includeHidden)
      + (if Counted(e, includeHidden) then 1 + PreCount(e, includeHidden) else 0)
  }
}
