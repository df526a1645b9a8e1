/**
 * `DirectoryScanner`: the counters and the record list, filled in place by
 * `scan_directory`, and what is proved about the list a scan leaves.
 */
module Scanner {
  import opened Text
  import opened FileTree
  import opened Records
  import opened Blocks
  import opened Listings
  import opened Emit
  import opened Linking

  class DirectoryScanner {
    var totalFiles: nat
    var totalFolders: nat
    var totalSize: nat
    var items: seq<Item>

    /** The counters agree with the record list. */
    ghost predicate Valid()
      reads this
    {
      totalFolders == CountDirs(items) && totalFiles == CountFiles(items)
      && totalSize == FileBytes(items)
    }

    constructor()
      ensures Valid() && items == []
      ensures totalFiles == 0 && totalFolders == 0 && totalSize == 0
    {
      totalFiles, totalFolders, totalSize, items := 0, 0, 0, [];
    }

    /** `calculate_folder_size`: walk the folder, adding the size of every file not named '~…' or '$…'. */
    method CalculateFolderSize(folder: Entry) returns (total: nat)
      ensures total == FolderSize(folder)
    {
      var steps := Walk(folder);
      total := 0;
      var i := 0;
      while i < |steps|
        invariant 0 <= i <= |steps|
        invariant total == WalkSize(steps[..i])
      {
        var files := steps[i];
        var j := 0;
        while j < |files|
          invariant 0 <= j <= |files|
          invariant total == WalkSize(steps[..i]) + StepSize(files[..j])
        {
          var f := files[j];
          if f.File? && !IsTemp(f.name) {
            total := total + f.size;
          }
          assert files[..j + 1][..j] == files[..j];
          j := j + 1;
        }
        assert files[..j] == files;
        assert steps[..i + 1][..i] == steps[..i];
        i := i + 1;
      }
      assert steps[..i] == steps;
      WalkFolderSize(folder);
    }

    /**
     * `process_directory(path, P, L)` on directory `d`, with the running
     * counter `counter` (`item_id`) passed in and its new value returned.
     */
    method ProcessDirectory(d: Entry, path: string, P: Option<ItemId>, L: nat, h: bool, counter: nat)
      returns (next: nat)
      requires Valid() && counter == |items|
      modifies this
      ensures Valid() && next == |items|
      ensures items == Process(d, path, P, L, h, old(items))
      decreases d, 1
    {
      next := counter;
      if d.File? {
        return;
      }
      var dirs, files := SplitKinds(ListedOf(d.entries, h));
      dirs := SortByName(dirs);
      files := SortByName(files);
      assert dirs == ListedDirs(d.entries, h) && files == ListedFiles(d.entries, h);

      next := AppendDirs(d, dirs, path, P, L, h, next);
      next := AppendFiles(files, path, P, L, next);
    }

    /** The directory loop of `process_directory` over the sorted subdirectories `dirs` of `d`. */
    method AppendDirs(d: Entry, dirs: seq<Entry>, path: string, P: Option<ItemId>, L: nat, h: bool, counter: nat)
      returns (next: nat)
      requires Valid() && counter == |items|
      requires d.Dir? && forall x :: x in dirs ==> x in d.entries
      modifies this
      ensures Valid() && next == |items|
      ensures items == DirLoop(d, dirs, path, P, L, h, old(items))
      decreases d, 0, 1
    {
      next := counter;
      var k := 0;
      while k < |dirs|
        invariant 0 <= k <= |dirs|
        invariant Valid() && next == |items|
        invariant items == DirLoop(d, dirs[..k], path, P, L, h, old(items))
      {
        DirLoopSnoc(d, dirs, k, path, P, L, h, old(items));
        next := AppendDir(d, dirs[k], path, P, L, h, next);
        k := k + 1;
      }
      assert dirs[..k] == dirs;
    }

    /**
     * One pass of the directory loop of `process_directory` in directory
     * `owner`: measure subdirectory `e`, append its record numbered
     * `counter`, then process it with that record as parent, one level down.
     */
    method AppendDir(owner: Entry, e: Entry, path: string, P: Option<ItemId>, L: nat, h: bool, counter: nat)
      returns (next: nat)
      requires Valid() && counter == |items|
      requires owner.Dir? && e in owner.entries
      modifies this
      ensures Valid() && next == |items|
      ensures items == DirStep(owner, old(items), e, path, P, L, h)
      decreases owner, 0, 0
    {
      var full := Join(path, e.name);
      var size := CalculateFolderSize(e);
      var id := DirId(counter);
      var x := Item(id, e.name, full, full, size, true, L, P, []);
      assert x == DirItem(e, path, P, L, |items|);
      CountsSnoc(items, x);
      items := items + [x];
      totalFolders := totalFolders + 1;
      next := ProcessDirectory(e, full, Some(id), L + 1, h, counter + 1);
    }

    /** The file loop of `process_directory`: one record per file, numbered on from `counter`. */
    method AppendFiles(files: seq<Entry>, path: string, P: Option<ItemId>, L: nat, counter: nat)
      returns (next: nat)
      requires Valid() && counter == |items|
      requires forall x :: x in files ==> x.File?
      modifies this
      ensures Valid() && next == |items|
      ensures items == FileLoop(files, path, P, L, old(items))
    {
      next := counter;
      var m := 0;
      while m < |files|
        invariant 0 <= m <= |files|
        invariant Valid() && next == |items|
        invariant items == FileLoop(files[..m], path, P, L, old(items))
      {
        FileLoopSnoc(files, m, path, P, L, old(items));
        next := AppendFile(files[m], path, P, L, next);
        m := m + 1;
      }
      assert files[..m] == files;
    }

    /** One pass of the file loop: append the record for file `f`, numbered `counter`, and count it. */
    method AppendFile(f: Entry, path: string, P: Option<ItemId>, L: nat, counter: nat) returns (next: nat)
      requires Valid() && counter == |items| && f.File?
      modifies this
      ensures Valid() && next == |items|
      ensures items == old(items) + [FileItem(f, path, P, L, counter)]
    {
      var full := Join(path, f.name);
      var x := Item(FileId(counter), f.name, full, full, f.size, false, L, P, []);
      CountsSnoc(items, x);
      items := items + [x];
      totalFiles := totalFiles + 1;
      totalSize := totalSize + f.size;
      next := counter + 1;
    }

    /**
     * The final loop of `scan_directory`: index the records by id, then
     * append each record's id to the children of the record its parent id
     * names, when that id is indexed.
     */
    method LinkChildren()
      requires Valid()
      modifies this
      ensures Valid() && items == Linked(old(items))
      ensures totalFiles == old(totalFiles) && totalFolders == old(totalFolders)
      ensures totalSize == old(totalSize)
    {
      var index := IndexRecords();
      var linked := LinkAll(items, index);
      LinkedSame(items);
      SameButChildrenReads(items, linked, None);
      items := linked;
    }

    /** `item_map`: each record's id mapped to the position of the last record with that id. */
    method IndexRecords() returns (index: map<ItemId, nat>)
      ensures index == IndexOf(items, ItemKey)
    {
      index := map[];
      var i := 0;
      while i < |items|
        invariant 0 <= i <= |items|
        invariant index == IndexOf(items[..i], ItemKey)
      {
        assert items[..i + 1][..i] == items[..i];
        index := index[items[i].id := i];
        i := i + 1;
      }
      assert items[..i] == items;
    }

    /**
     * `scan_directory(root, include_hidden)`: reset the counters and the
     * list, run `process_directory` on the root with no parent at level 0,
     * then link children to parents.
     */
    method ScanDirectory(root: Entry, rootPath: string, h: bool)
      modifies this
      ensures Valid() && items == Scanned(root, rootPath, h)
    {
      totalFiles := 0;
      totalFolders := 0;
      totalSize := 0;
      items := [];
      var itemId := 0;
      itemId := ProcessDirectory(root, rootPath, None, 0, h, itemId);
      LinkChildren();
    }
  }

  /** The listing loop of `process_directory`: directories to one list, files to the other, in order. */
  method SplitKinds(listed: seq<Entry>) returns (dirs: seq<Entry>, files: seq<Entry>)
    ensures dirs == DirsOf(listed) && files == FilesOf(listed)
  {
    dirs, files := [], [];
    var i := 0;
    while i < |listed|
      invariant 0 <= i <= |listed|
      invariant dirs == DirsOf(listed[..i]) && files == FilesOf(listed[..i])
    {
      var e := listed[i];
      if e.Dir? {
        dirs := dirs + [e];
      } else {
        files := files + [e];
      }
      assert listed[..i + 1][..i] == listed[..i];
      i := i + 1;
    }
    assert listed[..i] == listed;
  }

  /**
   * The link loop over the records `B` with the index `index` of `B`: each
   * record's id goes to the end of the children of the record its parent id
   * is indexed at. The records are updated in a copy of the list.
   */
  method LinkAll(B: seq<Item>, index: map<ItemId, nat>) returns (linked: seq<Item>)
    requires index == IndexOf(B, ItemKey)
    ensures linked == Linked(B)
  {
    linked := B;
    var j := 0;
    while j < |B|
      invariant 0 <= j <= |B|
      invariant LinkedUpTo(linked, B, index, j)
    {
      var x := B[j];
      if x.parentId.Some? && x.parentId.value in index {
        var p := index[x.parentId.value];
        LinkStep(linked, B, index, j, p);
        linked := linked[p := linked[p].(children := linked[p].children + [x.id])];
      } else {
        LinkSkip(linked, B, index, j);
      }
      j := j + 1;
    }
    LinkDone(linked, B);
  }

  /** `C` is `B` after the link loop has run over the first `j` records of `B`. */
  ghost predicate LinkedUpTo(C: seq<Item>, B: seq<Item>, M: map<ItemId, nat>, j: nat)
    requires j <= |B|
  {
    |C| == |B| && forall k :: 0 <= k < |B| ==> C[k] == WithChildren(B[k], LinkedChildren(B[..j], M, k))
  }

  /** Record `j` names a parent indexed at `p`: its id goes to the end of `p`'s children. */
  lemma LinkStep(C: seq<Item>, B: seq<Item>, M: map<ItemId, nat>, j: nat, p: nat)
    requires j < |B| && LinkedUpTo(C, B, M, j)
    requires B[j].parentId.Some? && B[j].parentId.value in M && M[B[j].parentId.value] == p
    requires p < |B|
    ensures LinkedUpTo(C[p := C[p].(children := C[p].children + [B[j].id])], B, M, j + 1)
  {
    assert B[..j + 1][..j] == B[..j];
    var C' := C[p := C[p].(children := C[p].children + [B[j].id])];
    forall k | 0 <= k < |B|
      ensures C'[k] == WithChildren(B[k], LinkedChildren(B[..j + 1], M, k))
    {
      if k == p {
        var got := LinkedChildren(B[..j], M, k);
        assert LinkedChildren(B[..j + 1], M, k) == got + [B[j].id];
        assert B[k].children + got + [B[j].id] == B[k].children + (got + [B[j].id]);
      } else {
        assert LinkedChildren(B[..j + 1], M, k) == LinkedChildren(B[..j], M, k) + [];
      }
    }
  }

  /** Record `j` names no indexed parent: nothing changes. */
  lemma LinkSkip(C: seq<Item>, B: seq<Item>, M: map<ItemId, nat>, j: nat)
    requires j < |B| && LinkedUpTo(C, B, M, j)
    requires !(B[j].parentId.Some? && B[j].parentId.value in M)
    ensures LinkedUpTo(C, B, M, j + 1)
  {
    assert B[..j + 1][..j] == B[..j];
    forall k | 0 <= k < |B|
      ensures LinkedChildren(B[..j + 1], M, k) == LinkedChildren(B[..j], M, k)
    {
      assert LinkedChildren(B[..j + 1], M, k) == LinkedChildren(B[..j], M, k) + [];
    }
  }

  /** Once the loop has run over every record with the index of `B`, the list is `Linked(B)`. */
  lemma LinkDone(C: seq<Item>, B: seq<Item>)
    requires LinkedUpTo(C, B, IndexOf(B, ItemKey), |B|)
    ensures C == Linked(B)
  {
    assert B[..|B|] == B;
  }

  /** The records a scan of `root` leaves in `items`. */
  function Scanned(root: Entry, rootPath: string, h: bool): seq<Item>
  {
    Linked(Process(root, rootPath, None, 0, h, []))
  }

  // ---------------------------------------------------------------------------
  // What a scan leaves in `items`
  // ---------------------------------------------------------------------------

  /** The records before linking are a block from 0 with no parent at level 0, and linking changes only children. */
  lemma ScanBase(root: Entry, rootPath: string, h: bool)
    ensures Facts(Process(root, rootPath, None, 0, h, []), 0, None, 0, h)
    ensures SameButChildren(Process(root, rootPath, None, 0, h, []), Scanned(root, rootPath, h))
  {
    ProcessFacts(root, rootPath, None, 0, h, []);
    LinkedSame(Process(root, rootPath, None, 0, h, []));
  }

  /** Record `k` has the id "dir_k" or "file_k" by its kind, so no two records share an id, even as text. */
  lemma ScanIds(root: Entry, rootPath: string, h: bool)
    ensures var S := Scanned(root, rootPath, h);
      forall k :: 0 <= k < |S| ==> S[k].id == IdFor(S[k].isDir, k)
    ensures var S := Scanned(root, rootPath, h);
      forall i, j :: 0 <= i < |S| && 0 <= j < |S| && IdText(S[i].id) == IdText(S[j].id) ==> i == j
  {
    var B := Process(root, rootPath, None, 0, h, []);
    var S := Scanned(root, rootPath, h);
    ScanBase(root, rootPath, h);
    forall k | 0 <= k < |S| ensures S[k].id == IdFor(S[k].isDir, k) {
      assert RecordOK(B, 0, None, 0, h, k);
      assert S[k].(children := B[k].children) == B[k];
    }
    forall i, j | 0 <= i < |S| && 0 <= j < |S| && IdText(S[i].id) == IdText(S[j].id) ensures i == j {
      IdTextInjective(S[i].id, S[j].id);
    }
  }

  /**
   * A record without a parent sits at level 0; a record with a parent names
   * an earlier directory record one level up.
   */
  lemma ScanParents(root: Entry, rootPath: string, h: bool)
    ensures var S := Scanned(root, rootPath, h);
      forall k :: 0 <= k < |S| && S[k].parentId.None? ==> S[k].level == 0
    ensures var S := Scanned(root, rootPath, h);
      forall k :: 0 <= k < |S| && S[k].parentId.Some? ==>
        exists j :: 0 <= j < k && S[j].id == S[k].parentId.value && S[j].isDir && S[k].level == S[j].level + 1
  {
    var B := Process(root, rootPath, None, 0, h, []);
    var S := Scanned(root, rootPath, h);
    ScanBase(root, rootPath, h);
    forall k | 0 <= k < |S|
      ensures S[k].parentId.None? ==> S[k].level == 0
      ensures S[k].parentId.Some? ==>
        exists j :: 0 <= j < k && S[j].id == S[k].parentId.value && S[j].isDir && S[k].level == S[j].level + 1
    {
      assert RecordOK(B, 0, None, 0, h, k);
      assert S[k].(children := B[k].children) == B[k];
      if S[k].parentId.Some? {
        var j := ParentIndex(B, k);
        assert ParentAt(B, k, j);
        assert RecordOK(B, 0, None, 0, h, j);
        assert S[j].(children := B[j].children) == B[j];
      }
    }
  }

  /**
   * Descendants are contiguous: every record strictly between a directory
   * record and one of its children lies deeper than that directory.
   */
  lemma ScanContiguous(root: Entry, rootPath: string, h: bool)
    ensures var S := Scanned(root, rootPath, h);
      forall k, j, i :: 0 <= j < i < k < |S| && S[k].parentId == Some(S[j].id) ==> S[i].level > S[j].level
  {
    var B := Process(root, rootPath, None, 0, h, []);
    var S := Scanned(root, rootPath, h);
    ScanBase(root, rootPath, h);
    BlockContiguous(B, h);
    forall k, j, i | 0 <= j < i < k < |S| && S[k].parentId == Some(S[j].id)
      ensures S[i].level > S[j].level
    {
      assert S[k].(children := B[k].children) == B[k];
      assert S[j].(children := B[j].children) == B[j];
      assert S[i].(children := B[i].children) == B[i];
    }
  }

  /** In the records of one block from the root, everything between a directory and its child lies deeper. */
  lemma BlockContiguous(B: seq<Item>, h: bool)
    requires Facts(B, 0, None, 0, h)
    ensures forall k, j, i :: 0 <= j < i < k < |B| && B[k].parentId == Some(B[j].id) ==> B[i].level > B[j].level
  {
    forall k, j, i | 0 <= j < i < k < |B| && B[k].parentId == Some(B[j].id)
      ensures B[i].level > B[j].level
    {
      assert RecordOK(B, 0, None, 0, h, k);
      assert RecordOK(B, 0, None, 0, h, j);
      var m := ParentIndex(B, k);
      assert ParentAt(B, k, m);
      assert m == j;
      assert Nested(B, 0, k, j, i);
    }
  }

  /**
   * After linking, each record's children are the ids of the records that
   * name it as parent, in list order; a file record has none.
   */
  lemma ScanChildren(root: Entry, rootPath: string, h: bool)
    ensures var S := Scanned(root, rootPath, h);
      forall k :: 0 <= k < |S| ==>
        S[k].children == ChildIds(S, S[k].id) == Ids(ChildRecords(S, Some(S[k].id)))
    ensures var S := Scanned(root, rootPath, h);
      forall k :: 0 <= k < |S| && !S[k].isDir ==> S[k].children == []
  {
    var B := Process(root, rootPath, None, 0, h, []);
    var S := Scanned(root, rootPath, h);
    ScanBase(root, rootPath, h);
    assert IdsByIndex(B) by {
      forall k | 0 <= k < |B| ensures B[k].id.n == k {
        assert RecordOK(B, 0, None, 0, h, k);
      }
    }
    forall k | 0 <= k < |S|
      ensures S[k].children == ChildIds(S, S[k].id) == Ids(ChildRecords(S, Some(S[k].id)))
      ensures !S[k].isDir ==> S[k].children == []
    {
      assert RecordOK(B, 0, None, 0, h, k);
      LinkedChildrenNumbered(B, k);
      SameButChildrenReads(B, S, Some(B[k].id));
      ChildIdsAreIds(S, S[k].id);
      if !S[k].isDir {
        forall m | 0 <= m < |S| ensures S[m].parentId != Some(S[k].id) {
          assert RecordOK(B, 0, None, 0, h, m);
          assert S[m].(children := B[m].children) == B[m];
        }
        ChildRecordsNone(S, Some(S[k].id));
      }
    }
  }

  /**
   * A scan makes one record per entry it visits, in the order `Visited`
   * gives: record `k` has the name, kind and size of the `k`-th visited
   * entry, and that entry lies inside the root.
   */
  lemma ScanVisits(root: Entry, rootPath: string, h: bool)
    ensures var S := Scanned(root, rootPath, h); var src := Visited(root, h);
      |src| == |S| && forall k :: 0 <= k < |S| ==> Inside(src[k], root) && KidOfRecord(S[k]) == KidOfEntry(src[k])
  {
    var B := Process(root, rootPath, None, 0, h, []);
    var S := Scanned(root, rootPath, h);
    var src := Visited(root, h);
    ScanBase(root, rootPath, h);
    ProcessShows(root, rootPath, None, 0, h, []);
    VisitedInside(root, h);
    forall k | 0 <= k < |S| ensures Inside(src[k], root) && KidOfRecord(S[k]) == KidOfEntry(src[k]) {
      assert src[k] in src;
      assert S[k].(children := B[k].children) == B[k];
      assert ShowsEntry(B, 0 + k, src[k], h);
    }
  }

  /**
   * Under every directory record hangs exactly the listing of the directory
   * it was made for, the one `ScanVisits` pairs it with: its listed
   * subdirectories, then its listed files, each group in case-insensitive
   * order. The top-level records are the root's listing; a root that is a
   * file gives no records.
   */
  lemma ScanListings(root: Entry, rootPath: string, h: bool)
    ensures var S := Scanned(root, rootPath, h); var src := Visited(root, h);
      |src| == |S| && forall k :: 0 <= k < |S| && S[k].isDir ==>
        src[k].Dir? && Kids(ChildRecords(S, Some(S[k].id))) == Listing(src[k].entries, h)
    ensures root.Dir? ==> Kids(ChildRecords(Scanned(root, rootPath, h), None)) == Listing(root.entries, h)
    ensures root.File? ==> Scanned(root, rootPath, h) == []
  {
    var B := Process(root, rootPath, None, 0, h, []);
    var S := Scanned(root, rootPath, h);
    var src := Visited(root, h);
    ScanBase(root, rootPath, h);
    ProcessShows(root, rootPath, None, 0, h, []);
    forall k | 0 <= k < |S| && S[k].isDir
      ensures src[k].Dir? && Kids(ChildRecords(S, Some(S[k].id))) == Listing(src[k].entries, h)
    {
      assert S[k].(children := B[k].children) == B[k];
      assert ShowsEntry(B, 0 + k, src[k], h);
      assert RecordOK(B, 0, None, 0, h, k);
      SameButChildrenReads(B, S, Some(DirId(k)));
    }
    if root.Dir? {
      ProcessTop(root, rootPath, None, 0, h, []);
      SameButChildrenReads(B, S, None);
    }
  }

  /** Only names that pass the listing filter are recorded: without hidden entries, none starts with '.', '~' or '$'. */
  lemma ScanFiltered(root: Entry, rootPath: string, h: bool)
    ensures var S := Scanned(root, rootPath, h);
      forall k :: 0 <= k < |S| ==> Listed(S[k].name, h)
    ensures var S := Scanned(root, rootPath, h);
      !h ==> forall k :: 0 <= k < |S| ==>
        !StartsWith(S[k].name, '.') && !StartsWith(S[k].name, '~') && !StartsWith(S[k].name, '$')
  {
    var B := Process(root, rootPath, None, 0, h, []);
    var S := Scanned(root, rootPath, h);
    ScanBase(root, rootPath, h);
    forall k | 0 <= k < |S| ensures Listed(S[k].name, h) {
      assert RecordOK(B, 0, None, 0, h, k);
      assert S[k].(children := B[k].children) == B[k];
    }
  }
}
