/**
 * What the page script draws from the map `buildHierarchy` builds: which
 * records the search box and the filter buttons let through, the contents
 * pane and its statistics, and the navigation tree.
 */
module Browse {
  import opened Text
  import opened Records
  import opened Serializer

  // ---------------------------------------------------------------------------
  // Search and filter (`shouldShowItem`)
  // ---------------------------------------------------------------------------

  /** The extensions each category button lets through. */
  const ImageFilterExts: set<string> :=
    {".jpg", ".jpeg", ".png", ".gif", ".bmp", ".svg", ".tiff", ".webp", ".heic", ".ico"}
  const DocumentFilterExts: set<string> :=
    {".pdf", ".doc", ".docx", ".txt", ".rtf", ".odt", ".pages", ".xls", ".xlsx", ".csv", ".ppt", ".pptx"}
  const VideoFilterExts: set<string> :=
    {".mp4", ".avi", ".mov", ".mkv", ".wmv", ".flv", ".webm", ".m4v", ".3gp", ".mpg", ".mpeg"}
  const AudioFilterExts: set<string> :=
    {".mp3", ".wav", ".m4a", ".flac", ".aac", ".ogg", ".wma", ".mp2", ".aiff"}

  /**
   * The value of `currentFilter`: one of the seven filter buttons, by their
   * `data-filter` values "all", "folders", "files", "images", "documents",
   * "videos" and "audio", or `Other` for any other string.
   */
  datatype Filter = All | Folders | Files | Images | Documents | Videos | Audio | Other
  {
    predicate IsCategory()
    {
      Images? || Documents? || Videos? || Audio?
    }
  }

  /** The `data-filter` value of a button. */
  function FilterName(f: Filter): string
    requires !f.Other?
  {
    match f
    case All => "all"
    case Folders => "folders"
    case Files => "files"
    case Images => "images"
    case Documents => "documents"
    case Videos => "videos"
    case Audio => "audio"
  }

  /** The filter a `data-filter` string selects; a string that is no button's value selects `Other`. */
  function FilterOf(value: string): (f: Filter)
    ensures !f.Other? ==> FilterName(f) == value
  {
    if value == "all" then All
    else if value == "folders" then Folders
    else if value == "files" then Files
    else if value == "images" then Images
    else if value == "documents" then Documents
    else if value == "videos" then Videos
    else if value == "audio" then Audio
    else Other
  }

  /** Reading a button's value back gives that button, and only a string that is no button's value gives `Other`. */
  lemma FilterOfName(value: string)
    ensures forall f: Filter :: !f.Other? ==> FilterOf(FilterName(f)) == f
    ensures FilterOf(value).Other? <==> forall f: Filter :: !f.Other? ==> FilterName(f) != value
  {
    forall f: Filter | !f.Other? ensures FilterOf(FilterName(f)) == f {
    }
  }

  /** The extensions a category button lets through; none for the other buttons. */
  function CategoryExts(filter: Filter): set<string>
  {
    match filter
    case Images => ImageFilterExts
    case Documents => DocumentFilterExts
    case Videos => VideoFilterExts
    case Audio => AudioFilterExts
    case _ => {}
  }

  /** An empty search matches everything; otherwise the name must contain it, ignoring case. */
  predicate SearchMatches(name: string, search: string)
  {
    search == [] || Contains(Lower(name), Lower(search))
  }

  /**
   * `shouldShowItem`: a record is shown only when its name matches the
   * search; then "all" shows it, "folders" and "files" show it by its kind,
   * a category shows only a file whose lower-cased extension is one of the
   * category's, and any other filter string shows nothing.
   */
  function ShouldShow(x: Record, filter: Filter, search: string): (r: bool)
    ensures r ==> SearchMatches(x.name, search)
    ensures filter.All? ==> (r <==> SearchMatches(x.name, search))
    ensures filter.Folders? ==> (r <==> SearchMatches(x.name, search) && x.isDir)
    ensures filter.Files? ==> (r <==> SearchMatches(x.name, search) && !x.isDir)
    ensures filter.IsCategory() ==>
              (r <==> SearchMatches(x.name, search) && !x.isDir && Lower(x.extension) in CategoryExts(filter))
    ensures filter.Other? ==> !r
  {
    if search != [] && !Contains(Lower(x.name), Lower(search)) then false
    else if filter == All then true
    else if filter == Folders then x.isDir
    else if filter == Files then !x.isDir
    else if !x.isDir then
      var ext := Lower(x.extension);
      match filter
      case Images => ext in ImageFilterExts
      case Documents => ext in DocumentFilterExts
      case Videos => ext in VideoFilterExts
      case Audio => ext in AudioFilterExts
      case Other => false
    else false
  }

  /** A search only ever hides records; clearing it shows at least as much. */
  lemma SearchNarrows(x: Record, filter: Filter, search: string)
    ensures ShouldShow(x, filter, search) ==> ShouldShow(x, filter, "")
    ensures ShouldShow(x, filter, search) ==> ShouldShow(x, All, search)
  {
  }

  /** The search ignores case in the typed text as well as in the names. */
  lemma SearchIgnoresCase(x: Record, filter: Filter, search: string)
    ensures ShouldShow(x, filter, search) == ShouldShow(x, filter, Lower(search))
  {
    LowerIdempotent(search);
  }

  /** "folders" and "files" split what "all" shows into two parts with nothing in common. */
  lemma FoldersAndFilesSplit(x: Record, search: string)
    ensures ShouldShow(x, All, search) <==> ShouldShow(x, Folders, search) || ShouldShow(x, Files, search)
    ensures !(ShouldShow(x, Folders, search) && ShouldShow(x, Files, search))
  {
  }

  // ---------------------------------------------------------------------------
  // The contents pane (`renderFolderContents`)
  // ---------------------------------------------------------------------------

  /** `a` is `b` with some elements dropped, the rest kept in order. */
  predicate IsSubsequence<T(==)>(a: seq<T>, b: seq<T>)
    decreases |b|
  {
    if a == [] then true
    else if b == [] then false
    else (a[|a| - 1] == b[|b| - 1] && IsSubsequence(a[..|a| - 1], b[..|b| - 1]))
         || IsSubsequence(a, b[..|b| - 1])
  }

  /** The children the list shows: those that are keys of the map and pass the search and filter. */
  function Visible(m: map<ItemId, Record>, cs: seq<ItemId>, filter: Filter, search: string): (r: seq<ItemId>)
    ensures |r| <= |cs|
  {
    if cs == [] then []
    else
      var c := cs[|cs| - 1];
      Visible(m, cs[..|cs| - 1], filter, search) + (if c in m && ShouldShow(m[c], filter, search) then [c] else [])
  }

  /**
   * The list keeps the children in their order, and holds exactly those that
   * are keys of the map and pass the search and the filter.
   */
  lemma {:induction false} VisibleSpec(m: map<ItemId, Record>, cs: seq<ItemId>, filter: Filter, search: string)
    ensures IsSubsequence(Visible(m, cs, filter, search), cs)
    ensures forall c :: c in Visible(m, cs, filter, search) <==> c in cs && c in m && ShouldShow(m[c], filter, search)
  {
    if cs != [] {
      var c := cs[|cs| - 1];
      var init := Visible(m, cs[..|cs| - 1], filter, search);
      VisibleSpec(m, cs[..|cs| - 1], filter, search);
      assert forall d :: d in cs <==> d in cs[..|cs| - 1] || d == c;
      if c in m && ShouldShow(m[c], filter, search) {
        assert (init + [c])[..|init|] == init;
      } else {
        assert init + [] == init;
      }
    }
  }

  /** What the contents pane holds: the "This folder is empty" placeholder, or a list of records. */
  datatype Contents = EmptyFolder | Shown(ids: seq<ItemId>)

  /**
   * The pane for a folder: the placeholder exactly when the folder has no
   * children; otherwise the children that pass, in order. A folder whose
   * children are all filtered out shows an empty list and no placeholder.
   */
  function FolderContents(m: map<ItemId, Record>, folder: Record, filter: Filter, search: string): (r: Contents)
    ensures r == EmptyFolder <==> folder.children == []
  {
    if folder.children == [] then EmptyFolder
    else Shown(Visible(m, folder.children, filter, search))
  }

  /** The loop of `renderFolderContents`, collecting the ids it draws. */
  method ShownChildren(m: map<ItemId, Record>, cs: seq<ItemId>, filter: Filter, search: string)
    returns (shown: seq<ItemId>)
    ensures shown == Visible(m, cs, filter, search)
  {
    shown := [];
    var i := 0;
    while i < |cs|
      invariant 0 <= i <= |cs| && shown == Visible(m, cs[..i], filter, search)
    {
      var c := cs[i];
      assert cs[..i + 1][..i] == cs[..i];
      if c in m && ShouldShow(m[c], filter, search) {
        shown := shown + [c];
      }
      i := i + 1;
    }
    assert cs[..|cs|] == cs;
  }

  // ---------------------------------------------------------------------------
  // The folder statistics (`updateFolderStats`)
  // ---------------------------------------------------------------------------

  /** The four numbers of the statistics bar; the byte total is shown through `formatSize`. */
  datatype Stats = Stats(folders: nat, files: nat, bytes: nat, total: nat)

  /**
   * The statistics of a folder's children, with no regard to the search or the
   * filter: how many are folders, how many are files, the sum of their sizes
   * (a child folder counts with its folder size), and how many children there
   * are, counting ids that are not keys of the map.
   */
  function FolderStats(m: map<ItemId, Record>, cs: seq<ItemId>): (s: Stats)
    ensures s.total == |cs|
    ensures s.folders + s.files <= s.total
    ensures (forall c :: c in cs ==> c in m) ==> s.folders + s.files == s.total
  {
    if cs == [] then Stats(0, 0, 0, 0)
    else
      var c := cs[|cs| - 1];
      var s := FolderStats(m, cs[..|cs| - 1]);
      assert forall d :: d in cs[..|cs| - 1] ==> d in cs;
      if c !in m then Stats(s.folders, s.files, s.bytes, s.total + 1)
      else if m[c].isDir then Stats(s.folders + 1, s.files, s.bytes + m[c].sizeBytes, s.total + 1)
      else Stats(s.folders, s.files + 1, s.bytes + m[c].sizeBytes, s.total + 1)
  }

  /**
   * The folder and file counts are what the "folders" and "files" buttons
   * would list with the search box empty, and together what "all" would list.
   */
  lemma {:induction false} StatsCountShown(m: map<ItemId, Record>, cs: seq<ItemId>)
    ensures FolderStats(m, cs).folders == |Visible(m, cs, Folders, "")|
    ensures FolderStats(m, cs).files == |Visible(m, cs, Files, "")|
    ensures FolderStats(m, cs).folders + FolderStats(m, cs).files == |Visible(m, cs, All, "")|
  {
    if cs != [] {
      var init := cs[..|cs| - 1];
      var c := cs[|cs| - 1];
      StatsCountShown(m, init);
      if c in m {
        var x := m[c];
        assert ShouldShow(x, Folders, "") == x.isDir;
        assert ShouldShow(x, Files, "") == !x.isDir;
        assert ShouldShow(x, All, "");
      }
    }
  }

  // ---------------------------------------------------------------------------
  // The navigation tree (`renderNavTree` and `renderNavItem`)
  // ---------------------------------------------------------------------------

  /** One line of the navigation tree: the record drawn and its indentation level. */
  datatype NavRow = NavRow(id: ItemId, level: nat)

  /** The children of `x` that are keys of the map carry a larger counter than `x`. */
  ghost predicate ChildrenAbove(m: map<ItemId, Record>, x: Record)
  {
    forall c :: c in x.children && c in m ==> c.n > x.id.n
  }

  /** Every entry is stored under its own id, and its children come later. */
  ghost predicate Ranked(m: map<ItemId, Record>)
  {
    forall q :: q in m ==> m[q].id == q && ChildrenAbove(m, m[q])
  }

  /** What drawing the tree needs of the page data: the recursion goes down in every step. */
  ghost predicate NavReady(data: seq<Record>, m: map<ItemId, Record>)
  {
    Ranked(m) && forall k :: 0 <= k < |data| ==> ChildrenAbove(m, data[k])
  }

  /** The keys with a counter above `k`: what is left for the recursion to visit. */
  ghost function Above(m: map<ItemId, Record>, k: nat): set<ItemId>
  {
    set q | q in m && q.n > k
  }

  /**
   * `renderNavItem(x, level)`: a row for `x`, then, when `x` is an expanded
   * folder, the rows of its children one level deeper.
   */
  function NavItem(m: map<ItemId, Record>, x: Record, level: nat, expanded: set<ItemId>): (rows: seq<NavRow>)
    requires Ranked(m) && ChildrenAbove(m, x)
    ensures |rows| >= 1 && rows[0] == NavRow(x.id, level)
    ensures forall i :: 1 <= i < |rows| ==> rows[i].level > level
    ensures !(x.isDir && x.id in expanded) ==> rows == [NavRow(x.id, level)]
    decreases Above(m, x.id.n), 1
  {
    [NavRow(x.id, level)]
    + (if x.isDir && x.id in expanded then NavKids(m, x.children, x.id.n, level + 1, expanded) else [])
  }

  /** The rows of the children `cs`, each that is a key of the map drawn at `level`, in order. */
  function NavKids(m: map<ItemId, Record>, cs: seq<ItemId>, ghost k: nat, level: nat, expanded: set<ItemId>)
    : (rows: seq<NavRow>)
    requires Ranked(m) && forall c :: c in cs && c in m ==> c.n > k
    ensures forall i :: 0 <= i < |rows| ==> rows[i].level >= level
    decreases Above(m, k), 0, |cs|
  {
    if cs == [] then []
    else
      var c := cs[0];
      (if c in m then
         assert c in Above(m, k) && c !in Above(m, c.n);
         assert Above(m, c.n) <= Above(m, k);
         NavItem(m, m[c], level, expanded)
       else [])
      + NavKids(m, cs[1..], k, level, expanded)
  }

  /** `renderNavTree`: every top-level record of the page data (one with no parent id), at level 0. */
  function NavList(data: seq<Record>, m: map<ItemId, Record>, expanded: set<ItemId>): (rows: seq<NavRow>)
    requires NavReady(data, m)
  {
    if data == [] then []
    else
      var x := data[|data| - 1];
      NavList(data[..|data| - 1], m, expanded) + (if x.parentId.None? then NavItem(m, x, 0, expanded) else [])
  }

  /** The ids of the rows at `level`, in order. */
  function AtLevel(rows: seq<NavRow>, level: nat): (r: seq<ItemId>)
    ensures |r| <= |rows|
  {
    if rows == [] then []
    else (if rows[0].level == level then [rows[0].id] else []) + AtLevel(rows[1..], level)
  }

  lemma {:induction false} AtLevelAppend(a: seq<NavRow>, b: seq<NavRow>, level: nat)
    ensures AtLevel(a + b, level) == AtLevel(a, level) + AtLevel(b, level)
  {
    if a == [] {
      assert a + b == b;
    } else {
      var head: seq<ItemId> := if a[0].level == level then [a[0].id] else [];
      assert (a + b)[0] == a[0];
      assert (a + b)[1..] == a[1..] + b;
      AtLevelAppend(a[1..], b, level);
      calc {
        AtLevel(a + b, level);
        head + AtLevel(a[1..] + b, level);
        head + (AtLevel(a[1..], level) + AtLevel(b, level));
        (head + AtLevel(a[1..], level)) + AtLevel(b, level);
      }
    }
  }

  /** Rows all deeper than `level` have none at `level`. */
  lemma {:induction false} AtLevelDeeper(rows: seq<NavRow>, level: nat)
    requires forall i :: 0 <= i < |rows| ==> rows[i].level > level
    ensures AtLevel(rows, level) == []
  {
    if rows != [] {
      AtLevelDeeper(rows[1..], level);
    }
  }

  /** The ids of `cs` that are keys of the map, in order. */
  function Present(m: map<ItemId, Record>, cs: seq<ItemId>): (r: seq<ItemId>)
    ensures forall c :: c in r <==> c in cs && c in m
  {
    if cs == [] then [] else (if cs[0] in m then [cs[0]] else []) + Present(m, cs[1..])
  }

  /** A record's own rows hold exactly one row at its level: its own. */
  lemma NavItemAtLevel(m: map<ItemId, Record>, x: Record, level: nat, expanded: set<ItemId>)
    requires Ranked(m) && ChildrenAbove(m, x)
    ensures AtLevel(NavItem(m, x, level, expanded), level) == [x.id]
  {
    var rows := NavItem(m, x, level, expanded);
    assert rows == [rows[0]] + rows[1..];
    AtLevelAppend([rows[0]], rows[1..], level);
    AtLevelDeeper(rows[1..], level);
  }

  /** The children's rows at their own level are the children that are keys of the map, in order. */
  lemma {:induction false} NavKidsAtLevel(m: map<ItemId, Record>, cs: seq<ItemId>, k: nat, level: nat,
                                          expanded: set<ItemId>)
    requires Ranked(m) && forall c :: c in cs && c in m ==> c.n > k
    ensures AtLevel(NavKids(m, cs, k, level, expanded), level) == Present(m, cs)
  {
    if cs != [] {
      var c := cs[0];
      var head := if c in m then NavItem(m, m[c], level, expanded) else [];
      AtLevelAppend(head, NavKids(m, cs[1..], k, level, expanded), level);
      if c in m {
        NavItemAtLevel(m, m[c], level, expanded);
      }
      NavKidsAtLevel(m, cs[1..], k, level, expanded);
    }
  }

  /** An expanded folder's rows one level down are its children that are keys of the map, in order. */
  lemma NavItemChildren(m: map<ItemId, Record>, x: Record, level: nat, expanded: set<ItemId>)
    requires Ranked(m) && ChildrenAbove(m, x)
    requires x.isDir && x.id in expanded
    ensures AtLevel(NavItem(m, x, level, expanded), level + 1) == Present(m, x.children)
  {
    var kids := NavKids(m, x.children, x.id.n, level + 1, expanded);
    AtLevelAppend([NavRow(x.id, level)], kids, level + 1);
    NavKidsAtLevel(m, x.children, x.id.n, level + 1, expanded);
  }

  /** The ids of the records with no parent id, in order. */
  function TopLevel(data: seq<Record>): (r: seq<ItemId>)
    ensures |r| <= |data|
  {
    if data == [] then []
    else
      var x := data[|data| - 1];
      TopLevel(data[..|data| - 1]) + (if x.parentId.None? then [x.id] else [])
  }

  /** The tree's level-0 rows are the top-level records, in the order of the page data. */
  lemma {:induction false} NavListTop(data: seq<Record>, m: map<ItemId, Record>, expanded: set<ItemId>)
    requires NavReady(data, m)
    ensures AtLevel(NavList(data, m, expanded), 0) == TopLevel(data)
  {
    if data != [] {
      var init := data[..|data| - 1];
      var x := data[|data| - 1];
      assert NavReady(init, m);
      NavListTop(init, m, expanded);
      var tail := if x.parentId.None? then NavItem(m, x, 0, expanded) else [];
      AtLevelAppend(NavList(init, m, expanded), tail, 0);
      if x.parentId.None? {
        NavItemAtLevel(m, x, 0, expanded);
      }
    }
  }

  /** With no folder expanded the tree is just the top-level records, all at level 0. */
  lemma {:induction false} NavListCollapsed(data: seq<Record>, m: map<ItemId, Record>)
    requires NavReady(data, m)
    ensures forall i :: 0 <= i < |NavList(data, m, {})| ==> NavList(data, m, {})[i].level == 0
    ensures |NavList(data, m, {})| == |TopLevel(data)|
  {
    if data != [] {
      var init := data[..|data| - 1];
      assert NavReady(init, m);
      NavListCollapsed(init, m);
    }
  }
}
