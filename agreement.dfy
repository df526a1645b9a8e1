/**
 * The page generator meets the page script: the records a scan embeds come
 * back out of `buildHierarchy` exactly as they were written, the navigation
 * tree can always be drawn from them, the page opens on the first record,
 * the statistics bar of a scanned folder counts that folder's listing, and
 * the filter buttons agree with the icon classes where their tables agree.
 */
module Agreement {
  import opened Text
  import opened FileTree
  import opened Records
  import opened Icons
  import opened Listings
  import opened Emit
  import opened Serializer
  import opened Hierarchy
  import opened Browse
  import opened Explorer
  import opened Scanner

  // ---------------------------------------------------------------------------
  // The shape of a scan's record list
  // ---------------------------------------------------------------------------

  /** Record `k` carries the counter `k` in its id. */
  ghost predicate Numbered(S: seq<Item>)
  {
    forall k :: 0 <= k < |S| ==> S[k].id.n == k
  }

  /** A record's parent id names an earlier record. */
  ghost predicate ParentsEarlier(S: seq<Item>)
  {
    forall k :: 0 <= k < |S| && S[k].parentId.Some? ==>
      exists j :: 0 <= j < k && S[j].id == S[k].parentId.value
  }

  /** A record's children are the ids of the records naming it as parent, in list order. */
  ghost predicate ChildrenLinked(S: seq<Item>)
  {
    forall k :: 0 <= k < |S| ==> S[k].children == ChildIds(S, S[k].id)
  }

  /** The three facts about a scan the page script relies on. */
  lemma ScanShape(root: Entry, rootPath: string, h: bool)
    ensures var S := Scanned(root, rootPath, h);
      Numbered(S) && ParentsEarlier(S) && ChildrenLinked(S)
  {
    var S := Scanned(root, rootPath, h);
    ScanIds(root, rootPath, h);
    ScanParents(root, rootPath, h);
    ScanChildren(root, rootPath, h);
    assert Numbered(S) by {
      forall k | 0 <= k < |S| ensures S[k].id.n == k {
        assert S[k].id == IdFor(S[k].isDir, k);
      }
    }
  }

  // ---------------------------------------------------------------------------
  // `buildHierarchy` reads back what the scanner linked
  // ---------------------------------------------------------------------------

  lemma SerializedPrefix(S: seq<Item>, n: nat)
    requires n <= |S|
    ensures Serialized(S[..n]) == Serialized(S)[..n]
  {
  }

  /** The script pushes onto each record the same children the scanner linked to it. */
  lemma {:induction false} ParentedIdsSerialized(S: seq<Item>, q: ItemId)
    ensures ParentedIds(Serialized(S), q) == ChildIds(S, q)
  {
    if S != [] {
      var n := |S| - 1;
      SerializedPrefix(S, n);
      ParentedIdsSerialized(S[..n], q);
    }
  }

  /** With one record per counter, each id is indexed at its own record. */
  lemma NumberedIndex(S: seq<Item>, k: nat)
    requires Numbered(S) && k < |S|
    ensures S[k].id in IndexOf(Serialized(S), RecordKey) && IndexOf(Serialized(S), RecordKey)[S[k].id] == k
  {
    var D := Serialized(S);
    var M := IndexOf(D, RecordKey);
    assert D[k].id == S[k].id;
    var j := M[S[k].id];
    assert D[j].id == S[k].id && S[j].id == D[j].id;
  }

  /**
   * On a numbered, linked list the map `buildHierarchy` builds from the
   * embedded records has exactly their ids as keys, and under each id the
   * embedded record itself, children included.
   */
  lemma {:induction false} ItemMapOfLinked(S: seq<Item>)
    requires Numbered(S) && ChildrenLinked(S)
    ensures var D := Serialized(S);
      forall q :: q in ItemMap(D) <==> exists k :: 0 <= k < |D| && D[k].id == q
    ensures var D := Serialized(S);
      forall k :: 0 <= k < |D| ==> ItemMap(D)[D[k].id] == D[k]
  {
    var D := Serialized(S);
    var m := ItemMap(D);
    forall k | 0 <= k < |D| ensures D[k].id in m && m[D[k].id] == D[k] {
      NumberedIndex(S, k);
      ParentedIdsSerialized(S, S[k].id);
    }
    forall q | q in m ensures exists k :: 0 <= k < |D| && D[k].id == q {
      var k := IndexOf(D, RecordKey)[q];
      assert D[k].id == q;
    }
  }

  /** The map the page builds from a scan's records holds every record, unchanged, under its own id. */
  lemma ScanItemMap(root: Entry, rootPath: string, h: bool)
    ensures var D := Serialized(Scanned(root, rootPath, h));
      forall q :: q in ItemMap(D) <==> exists k :: 0 <= k < |D| && D[k].id == q
    ensures var D := Serialized(Scanned(root, rootPath, h));
      forall k :: 0 <= k < |D| ==> ItemMap(D)[D[k].id] == D[k]
  {
    ScanShape(root, rootPath, h);
    ItemMapOfLinked(Scanned(root, rootPath, h));
  }

  // ---------------------------------------------------------------------------
  // The tree can be drawn from a scan
  // ---------------------------------------------------------------------------

  /** A child of record `k` is a later record, so its counter is larger. */
  lemma ChildLater(S: seq<Item>, k: nat, c: ItemId)
    requires Numbered(S) && ParentsEarlier(S) && ChildrenLinked(S)
    requires k < |S| && c in S[k].children
    ensures c.n > k
  {
    ChildIdsMembership(S, S[k].id, c);
    var j :| 0 <= j < |S| && S[j].id == c && S[j].parentId == Some(S[k].id);
    var i :| 0 <= i < j && S[i].id == S[j].parentId.value;
    assert S[i].id.n == i && S[k].id.n == k;
  }

  /**
   * On a numbered, linked list whose parents come first, every child is a
   * later record, so the recursion of `renderNavItem` goes down and ends.
   */
  lemma NavReadyOfLinked(S: seq<Item>)
    requires Numbered(S) && ParentsEarlier(S) && ChildrenLinked(S)
    ensures NavReady(Serialized(S), ItemMap(Serialized(S)))
  {
    var D := Serialized(S);
    var m := ItemMap(D);
    ItemMapOfLinked(S);
    forall k | 0 <= k < |D| ensures ChildrenAbove(m, D[k]) {
      forall c | c in D[k].children && c in m ensures c.n > D[k].id.n {
        ChildLater(S, k, c);
      }
    }
    forall q | q in m ensures m[q].id == q && ChildrenAbove(m, m[q]) {
      var k :| 0 <= k < |D| && D[k].id == q;
      assert m[q] == D[k];
    }
  }

  /** The page built from a scan meets what drawing the tree needs (the page constructor's precondition). */
  lemma ScanNavReady(root: Entry, rootPath: string, h: bool)
    ensures var D := Serialized(Scanned(root, rootPath, h)); NavReady(D, ItemMap(D))
  {
    ScanShape(root, rootPath, h);
    NavReadyOfLinked(Scanned(root, rootPath, h));
  }

  /** The page opens the first record of a scan, which has no parent; an empty scan opens nothing. */
  lemma ScanOpensFirstRecord(root: Entry, rootPath: string, h: bool)
    ensures var D := Serialized(Scanned(root, rootPath, h));
      FirstRoot(D) == if D == [] then None else Some(0)
  {
    var S := Scanned(root, rootPath, h);
    ScanShape(root, rootPath, h);
    if S != [] {
      assert S[0].parentId.None?;
    }
  }

  // ---------------------------------------------------------------------------
  // The statistics bar of a scanned folder
  // ---------------------------------------------------------------------------

  /** The statistics a listing would show: its folders, its files, the sum of their sizes, and its length. */
  function KidStats(kids: seq<Kid>): (s: Stats)
    ensures s.total == |kids| && s.folders + s.files == s.total
  {
    if kids == [] then Stats(0, 0, 0, 0)
    else
      var s := KidStats(kids[..|kids| - 1]);
      var x := kids[|kids| - 1];
      if x.isDir then Stats(s.folders + 1, s.files, s.bytes + x.sizeBytes, s.total + 1)
      else Stats(s.folders, s.files + 1, s.bytes + x.sizeBytes, s.total + 1)
  }

  /** Records found in the map as they were embedded give the statistics of their own listing. */
  lemma {:induction false} FolderStatsOfRecords(m: map<ItemId, Record>, rs: seq<Item>)
    requires forall i :: 0 <= i < |rs| ==> rs[i].id in m && m[rs[i].id] == Project(rs[i])
    ensures FolderStats(m, Ids(rs)) == KidStats(Kids(rs))
  {
    if rs != [] {
      var n := |rs| - 1;
      var cs, kids := Ids(rs), Kids(rs);
      assert cs[..n] == Ids(rs[..n]);
      assert kids[..n] == Kids(rs[..n]);
      FolderStatsOfRecords(m, rs[..n]);
      var x := m[cs[n]];
      assert x.isDir == kids[n].isDir && x.sizeBytes == kids[n].sizeBytes;
    }
  }

  /** The records under `q` are records of the list. */
  lemma {:induction false} ChildRecordsIn(S: seq<Item>, q: Option<ItemId>)
    ensures forall x :: x in ChildRecords(S, q) ==> x in S
  {
    if S != [] {
      var init := S[..|S| - 1];
      ChildRecordsIn(init, q);
      assert forall x :: x in init ==> x in S;
    }
  }

  /** On a numbered, linked list a folder's statistics are those of the records under it. */
  lemma FolderStatsOfLinked(S: seq<Item>, k: nat)
    requires Numbered(S) && ChildrenLinked(S) && k < |S|
    ensures FolderStats(ItemMap(Serialized(S)), Serialized(S)[k].children)
            == KidStats(Kids(ChildRecords(S, Some(S[k].id))))
  {
    var rs := ChildRecords(S, Some(S[k].id));
    ChildIdsAreIds(S, S[k].id);
    ChildRecordsIn(S, Some(S[k].id));
    RecordsInItemMap(S, rs);
    FolderStatsOfRecords(ItemMap(Serialized(S)), rs);
  }

  /** Records of a numbered, linked list are found in the map as they were embedded. */
  lemma RecordsInItemMap(S: seq<Item>, rs: seq<Item>)
    requires Numbered(S) && ChildrenLinked(S)
    requires forall x :: x in rs ==> x in S
    ensures forall i :: 0 <= i < |rs| ==>
      rs[i].id in ItemMap(Serialized(S)) && ItemMap(Serialized(S))[rs[i].id] == Project(rs[i])
  {
    var D := Serialized(S);
    ItemMapOfLinked(S);
    forall i | 0 <= i < |rs| ensures rs[i].id in ItemMap(D) && ItemMap(D)[rs[i].id] == Project(rs[i]) {
      assert rs[i] in S;
      var j :| 0 <= j < |S| && S[j] == rs[i];
      assert D[j] == Project(S[j]);
    }
  }

  /**
   * The statistics bar of a scanned folder counts the listing of the
   * directory the folder's record was made for (`ScanVisits`): its listed
   * subdirectories and files, and the sum of their sizes, a subfolder
   * counting with its folder size.
   */
  lemma ScanFolderStats(root: Entry, rootPath: string, h: bool)
    ensures var S := Scanned(root, rootPath, h); var D := Serialized(S); var src := Visited(root, h);
      |src| == |S| && forall k :: 0 <= k < |S| && S[k].isDir ==>
        src[k].Dir? && FolderStats(ItemMap(D), D[k].children) == KidStats(Listing(src[k].entries, h))
  {
    var S := Scanned(root, rootPath, h);
    var src := Visited(root, h);
    ScanListings(root, rootPath, h);
    ScanShape(root, rootPath, h);
    forall k | 0 <= k < |S| && S[k].isDir
      ensures FolderStats(ItemMap(Serialized(S)), Serialized(S)[k].children)
              == KidStats(Listing(src[k].entries, h))
    {
      FolderStatsOfLinked(S, k);
    }
  }

  // ---------------------------------------------------------------------------
  // The filter buttons and the icon classes
  // ---------------------------------------------------------------------------

  /** The class the icon table gives an extension in the image set: no earlier entry claims it. */
  lemma IconForImage(ext: string)
    ensures IconFor(ext) == "image" <==> ext in ImageExts
  {
  }

  /** A file record's extension is already lower-case, so the filter's lower-casing changes nothing. */
  lemma ExtensionLower(x: Item)
    ensures Lower(Project(x).extension) == Project(x).extension
  {
    if !x.isDir {
      LowerIdempotent(SplitExt(x.name).1);
    }
  }

  /** The image icon is given exactly to the extensions the "images" button lets through. */
  lemma ImageIconIffImageFilter(ext: string)
    ensures IconFor(ext) == "image" <==> ext in ImageFilterExts
  {
    IconForImage(ext);
    assert ImageExts == ImageFilterExts;
  }

  /** "images" shows a file exactly when it matches the search and carries the image icon. */
  lemma ImagesFilterMatchesIcon(x: Item, search: string)
    requires !x.isDir
    ensures ShouldShow(Project(x), Images, search) <==>
              SearchMatches(x.name, search) && Project(x).iconClass == "image"
  {
    var r := Project(x);
    var ext := FileExtension(x.name);
    assert r.extension == ext && r.iconClass == IconFor(ext);
    ExtensionLower(x);
    ImageIconIffImageFilter(ext);
  }

  /** The video icon is given only to extensions the "videos" button lets through. */
  lemma VideoIconInVideoFilter(ext: string)
    ensures IconFor(ext) == "video" ==> ext in VideoFilterExts
  {
  }

  /** The audio icon is given only to extensions the "audio" button lets through. */
  lemma AudioIconInAudioFilter(ext: string)
    ensures IconFor(ext) == "audio" ==> ext in AudioFilterExts
  {
  }

  /** A file whose extension a category lets through is shown by that category exactly when it matches the search. */
  lemma ShownInCategory(r: Record, filter: Filter, search: string)
    requires filter.IsCategory() && !r.isDir && Lower(r.extension) in CategoryExts(filter)
    ensures ShouldShow(r, filter, search) <==> SearchMatches(r.name, search)
  {
  }

  /** A file with the video icon is shown by "videos", search permitting. */
  lemma VideoIconShownByVideos(x: Item, search: string)
    requires !x.isDir && Project(x).iconClass == "video"
    ensures ShouldShow(Project(x), Videos, search) <==> SearchMatches(x.name, search)
  {
    var r := Project(x);
    var ext := FileExtension(x.name);
    assert r.extension == ext && r.iconClass == IconFor(ext);
    ExtensionLower(x);
    VideoIconInVideoFilter(ext);
    assert CategoryExts(Videos) == VideoFilterExts;
    ShownInCategory(r, Videos, search);
  }

  /** A file with the audio icon is shown by "audio", search permitting. */
  lemma AudioIconShownByAudio(x: Item, search: string)
    requires !x.isDir && Project(x).iconClass == "audio"
    ensures ShouldShow(Project(x), Audio, search) <==> SearchMatches(x.name, search)
  {
    var r := Project(x);
    var ext := FileExtension(x.name);
    assert r.extension == ext && r.iconClass == IconFor(ext);
    ExtensionLower(x);
    AudioIconInAudioFilter(ext);
    assert CategoryExts(Audio) == AudioFilterExts;
    ShownInCategory(r, Audio, search);
  }

  /** What "documents" shows carries one of the document icons. */
  lemma DocumentsHaveDocumentIcons(x: Item, search: string)
    requires ShouldShow(Project(x), Documents, search)
    ensures Project(x).iconClass in {"pdf", "word", "text", "excel", "powerpoint"}
  {
    ExtensionLower(x);
  }

  lemma MpgExtension()
    ensures FileExtension("clip.mpg") == ".mpg"
  {
    var name := "clip.mpg";
    LastDotAt(name, 4);
    assert name[0] == 'c';
    assert SplitExt(name).1 == ".mpg";
    assert Lower(".mpg") == ".mpg";
  }

  lemma MpgNotInIconTable()
    ensures IconFor(".mpg") == "file"
  {
    var e := ".mpg";
    assert e[1] == 'm' && e[2] == 'p' && e[3] == 'g';
    assert e !in PdfExts && e !in WordExts && e !in TextExts;
    assert e !in ExcelExts && e !in PowerpointExts;
    assert e !in ImageExts;
    assert e !in VideoExts;
    assert e !in AudioExts;
    assert e !in ArchiveExts;
    assert e !in CodeExts;
    assert e !in ExecutableExts;
  }

  /**
   * The tables do not agree everywhere: a ".mpg" file is shown by "videos"
   * but drawn with the generic file icon.
   */
  lemma MpgVideoWithGenericIcon()
    ensures var x := Item(FileId(0), "clip.mpg", "/clip.mpg", "/clip.mpg", 0, false, 0, None, []);
      ShouldShow(Project(x), Videos, "") && Project(x).iconClass == "file"
  {
    MpgExtension();
    MpgNotInIconTable();
  }
}
