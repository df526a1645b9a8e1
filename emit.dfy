/**
 * What `process_directory` does to `DirectoryScanner.items`, as functions of
 * the tree and of the list so far, and what is proved about the result: ids
 * follow the running counter, records come out in pre-order with each parent
 * before its children, descendants are contiguous, only listed names appear,
 * and the records hanging off each directory are that directory's listing.
 */
module Emit {
  import opened Text
  import opened Sizes
  import opened Icons
  import opened FileTree
  import opened Records
  import opened Blocks
  import opened Listings

  /** `os.path.join(dir, name)` for a relative `name`. */
  function Join(dir: string, name: string): string
  {
    if dir == [] || dir[|dir| - 1] == '/' then dir + name else dir + "/" + name
  }

  /** The record `process_directory` builds for subdirectory `e` when the counter is `k`. */
  function DirItem(e: Entry, path: string, parent: Option<ItemId>, level: nat, k: nat): Item
  {
    var p := Join(path, e.name);
    Item(DirId(k), e.name, p, p, FolderSize(e), true, level, parent, [])
  }

  /** The record `process_directory` builds for file `e` when the counter is `k`. */
  function FileItem(e: Entry, path: string, parent: Option<ItemId>, level: nat, k: nat): Item
    requires e.File?
  {
    var p := Join(path, e.name);
    Item(FileId(k), e.name, p, p, e.size, false, level, parent, [])
  }

  /**
   * `items` after `process_directory(path, P, L)` runs on directory `d`: the
   * directory loop over the listed subdirectories, then the file loop over
   * the listed files. Listing a file fails and the failure is swallowed, so
   * a file leaves the list as it was. The call only ever appends.
   */
  function Process(d: Entry, path: string, P: Option<ItemId>, L: nat, h: bool, items: seq<Item>): (r: seq<Item>)
    ensures items <= r
    decreases d, 1
  {
    match d
    case File(_, _) => items
    case Dir(_, es) =>
      FileLoop(ListedFiles(es, h), path, P, L, DirLoop(d, ListedDirs(es, h), path, P, L, h, items))
  }

  /** The directory loop of `process_directory` over `ds` (a part of `owner`'s listing). */
  function DirLoop(owner: Entry, ds: seq<Entry>, path: string, P: Option<ItemId>, L: nat, h: bool,
                   items: seq<Item>): (r: seq<Item>)
    requires owner.Dir? && forall x :: x in ds ==> x in owner.entries
    ensures items <= r
    decreases owner, 0, |ds|
  {
    if ds == [] then items
    else
      assert ds[|ds| - 1] in ds;
      DirStep(owner, DirLoop(owner, ds[..|ds| - 1], path, P, L, h, items), ds[|ds| - 1], path, P, L, h)
  }

  /**
   * One pass of the directory loop on the list `pre`: append the record for
   * subdirectory `e`, numbered `|pre|`, then recurse into `e` with that record
   * as parent, one level down.
   */
  function DirStep(owner: Entry, pre: seq<Item>, e: Entry, path: string, P: Option<ItemId>, L: nat,
                   h: bool): (r: seq<Item>)
    requires owner.Dir? && e in owner.entries
    ensures pre + [DirItem(e, path, P, L, |pre|)] <= r
    decreases owner, 0, 0
  {
    Process(e, Join(path, e.name), Some(DirId(|pre|)), L + 1, h, pre + [DirItem(e, path, P, L, |pre|)])
  }

  /** The file loop of `process_directory` over `fs`: one record per file, numbered on from `|items|`. */
  function FileLoop(fs: seq<Entry>, path: string, P: Option<ItemId>, L: nat, items: seq<Item>): (r: seq<Item>)
    requires forall x :: x in fs ==> x.File?
    ensures items <= r && |r| == |items| + |fs|
  {
    if fs == [] then items
    else
      assert fs[|fs| - 1] in fs;
      var pre := FileLoop(fs[..|fs| - 1], path, P, L, items);
      pre + [FileItem(fs[|fs| - 1], path, P, L, |pre|)]
  }

  /** One more pass of the directory loop is one more `DirStep`. */
  lemma DirLoopSnoc(owner: Entry, ds: seq<Entry>, k: nat, path: string, P: Option<ItemId>, L: nat, h: bool,
                    items: seq<Item>)
    requires owner.Dir? && forall x :: x in ds ==> x in owner.entries
    requires k < |ds|
    ensures DirLoop(owner, ds[..k + 1], path, P, L, h, items)
            == DirStep(owner, DirLoop(owner, ds[..k], path, P, L, h, items), ds[k], path, P, L, h)
  {
    assert ds[..k + 1][..k] == ds[..k];
  }

  /** One more pass of the file loop appends one record for the next file. */
  lemma FileLoopSnoc(fs: seq<Entry>, m: nat, path: string, P: Option<ItemId>, L: nat, items: seq<Item>)
    requires forall x :: x in fs ==> x.File?
    requires m < |fs|
    ensures FileLoop(fs[..m + 1], path, P, L, items)
            == FileLoop(fs[..m], path, P, L, items)
               + [FileItem(fs[m], path, P, L, |FileLoop(fs[..m], path, P, L, items)|)]
  {
    assert fs[..m + 1][..m] == fs[..m];
  }

  // ---------------------------------------------------------------------------
  // The appended records form a block
  // ---------------------------------------------------------------------------

  /** Every call of `process_directory` appends a block: numbered, nested, filtered records. */
  lemma {:induction false} ProcessFacts(d: Entry, path: string, P: Option<ItemId>, L: nat, h: bool,
                                        items: seq<Item>)
    requires ParentBefore(P, |items|)
    ensures Facts(Process(d, path, P, L, h, items), |items|, P, L, h)
    decreases d, 1
  {
    if d.Dir? {
      var dirs := ListedDirs(d.entries, h);
      DirLoopFacts(d, dirs, path, P, L, h, items);
      FileLoopFacts(ListedFiles(d.entries, h), path, P, L, h, DirLoop(d, dirs, path, P, L, h, items), |items|);
    } else {
      FactsEmpty(items, P, L, h);
    }
  }

  lemma {:induction false} DirLoopFacts(owner: Entry, ds: seq<Entry>, path: string, P: Option<ItemId>,
                                        L: nat, h: bool, items: seq<Item>)
    requires owner.Dir? && forall x :: x in ds ==> x in owner.entries
    requires forall x :: x in ds ==> Listed(x.name, h)
    requires ParentBefore(P, |items|)
    ensures Facts(DirLoop(owner, ds, path, P, L, h, items), |items|, P, L, h)
    decreases owner, 0, |ds|
  {
    if ds == [] {
      FactsEmpty(items, P, L, h);
    } else {
      var init := ds[..|ds| - 1];
      var e := ds[|ds| - 1];
      assert e in ds;
      DirLoopFacts(owner, init, path, P, L, h, items);
      DirStepFacts(owner, DirLoop(owner, init, path, P, L, h, items), e, path, P, L, h, |items|);
    }
  }

  /** One pass of the directory loop extends a block with a directory record and its own block. */
  lemma DirStepFacts(owner: Entry, pre: seq<Item>, e: Entry, path: string, P: Option<ItemId>, L: nat,
                     h: bool, a: nat)
    requires owner.Dir? && e in owner.entries && Listed(e.name, h)
    requires ParentBefore(P, a) && Facts(pre, a, P, L, h)
    ensures Facts(DirStep(owner, pre, e, path, P, L, h), a, P, L, h)
    decreases owner, 0, 0
  {
    ProcessFacts(e, Join(path, e.name), Some(DirId(|pre|)), L + 1, h, pre + [DirItem(e, path, P, L, |pre|)]);
    FactsStep(pre, DirItem(e, path, P, L, |pre|), DirStep(owner, pre, e, path, P, L, h), a, P, L, h);
  }

  lemma {:induction false} FileLoopFacts(fs: seq<Entry>, path: string, P: Option<ItemId>, L: nat, h: bool,
                                         B: seq<Item>, a: nat)
    requires forall x :: x in fs ==> x.File? && Listed(x.name, h)
    requires ParentBefore(P, a) && Facts(B, a, P, L, h)
    ensures Facts(FileLoop(fs, path, P, L, B), a, P, L, h)
    decreases |fs|
  {
    if fs != [] {
      var init := fs[..|fs| - 1];
      var last := fs[|fs| - 1];
      assert last in fs;
      forall x | x in init ensures x.File? && Listed(x.name, h) {
        assert x in fs;
      }
      FileLoopFacts(init, path, P, L, h, B, a);
      var pre := FileLoop(init, path, P, L, B);
      FactsOne(pre, FileItem(last, path, P, L, |pre|), P, L, h);
      FactsExtend(pre, pre + [FileItem(last, path, P, L, |pre|)], a, P, L, h);
    }
  }

  // ---------------------------------------------------------------------------
  // The records hanging off a call's own parent are the directory's listing
  // ---------------------------------------------------------------------------

  /** Regrouping two appends: `Y = (I + D) + F` is `I + (D + F)`. */
  lemma Regroup(Y: seq<Kid>, X: seq<Kid>, I: seq<Kid>, D: seq<Kid>, F: seq<Kid>, Z: seq<Kid>)
    requires Y == X + F && X == I + D && Z == D + F
    ensures Y == I + Z
  {
  }

  /** One pass of the directory loop hangs exactly one record, the subdirectory's, off the block's parent. */
  lemma DirStepTop(owner: Entry, pre: seq<Item>, e: Entry, path: string, P: Option<ItemId>, L: nat, h: bool)
    requires owner.Dir? && e in owner.entries && e.Dir?
    requires ParentBefore(P, |pre|)
    ensures Kids(ChildRecords(DirStep(owner, pre, e, path, P, L, h), P))
            == Kids(ChildRecords(pre, P)) + [KidOfEntry(e)]
  {
    ProcessFacts(e, Join(path, e.name), Some(DirId(|pre|)), L + 1, h, pre + [DirItem(e, path, P, L, |pre|)]);
    NotUnder(DirStep(owner, pre, e, path, P, L, h), |pre + [DirItem(e, path, P, L, |pre|)]|,
             Some(DirId(|pre|)), L + 1, h, P);
    ChildRecordsExtend(pre + [DirItem(e, path, P, L, |pre|)], DirStep(owner, pre, e, path, P, L, h), P);
    ChildRecordsSnoc(pre, DirItem(e, path, P, L, |pre|));
    KidsSnoc(ChildRecords(pre, P), DirItem(e, path, P, L, |pre|));
  }

  lemma {:induction false} DirLoopTop(owner: Entry, ds: seq<Entry>, path: string, P: Option<ItemId>,
                                      L: nat, h: bool, items: seq<Item>)
    requires owner.Dir? && forall x :: x in ds ==> x in owner.entries && x.Dir?
    requires ParentBefore(P, |items|)
    ensures Kids(ChildRecords(DirLoop(owner, ds, path, P, L, h, items), P))
            == Kids(ChildRecords(items, P)) + EntryKids(ds)
    decreases |ds|
  {
    if ds == [] {
      assert EntryKids(ds) == [];
    } else {
      var init := ds[..|ds| - 1];
      var e := ds[|ds| - 1];
      assert e in ds;
      DirLoopTop(owner, init, path, P, L, h, items);
      var pre := DirLoop(owner, init, path, P, L, h, items);
      DirStepTop(owner, pre, e, path, P, L, h);
      EntryKidsSnoc(ds);
      Regroup(Kids(ChildRecords(DirLoop(owner, ds, path, P, L, h, items), P)), Kids(ChildRecords(pre, P)),
              Kids(ChildRecords(items, P)), EntryKids(init), [KidOfEntry(e)], EntryKids(ds));
    }
  }

  lemma {:induction false} FileLoopTop(fs: seq<Entry>, path: string, P: Option<ItemId>, L: nat,
                                       items: seq<Item>)
    requires forall x :: x in fs ==> x.File?
    ensures Kids(ChildRecords(FileLoop(fs, path, P, L, items), P))
            == Kids(ChildRecords(items, P)) + EntryKids(fs)
    decreases |fs|
  {
    if fs == [] {
      assert EntryKids(fs) == [];
    } else {
      var init := fs[..|fs| - 1];
      var last := fs[|fs| - 1];
      assert last in fs;
      FileLoopTop(init, path, P, L, items);
      var pre := FileLoop(init, path, P, L, items);
      ChildRecordsSnoc(pre, FileItem(last, path, P, L, |pre|));
      KidsSnoc(ChildRecords(pre, P), FileItem(last, path, P, L, |pre|));
      EntryKidsSnoc(fs);
      Regroup(Kids(ChildRecords(FileLoop(fs, path, P, L, items), P)), Kids(ChildRecords(pre, P)),
              Kids(ChildRecords(items, P)), EntryKids(init), [KidOfEntry(last)], EntryKids(fs));
    }
  }

  /** The records a call hangs off its own parent are the directory's listing, in listing order. */
  lemma ProcessTop(d: Entry, path: string, P: Option<ItemId>, L: nat, h: bool, items: seq<Item>)
    requires d.Dir? && ParentBefore(P, |items|)
    ensures Kids(ChildRecords(Process(d, path, P, L, h, items), P))
            == Kids(ChildRecords(items, P)) + Listing(d.entries, h)
  {
    var dirs, files := ListedDirs(d.entries, h), ListedFiles(d.entries, h);
    DirLoopTop(d, dirs, path, P, L, h, items);
    var ds := DirLoop(d, dirs, path, P, L, h, items);
    FileLoopTop(files, path, P, L, ds);
    Regroup(Kids(ChildRecords(Process(d, path, P, L, h, items), P)), Kids(ChildRecords(ds, P)),
            Kids(ChildRecords(items, P)), EntryKids(dirs), EntryKids(files), Listing(d.entries, h));
  }

  // ---------------------------------------------------------------------------
  // Record by record, the scan shows the entries of the tree in pre-order
  // ---------------------------------------------------------------------------

  /** `e` lies inside directory `d`: it is one of `d`'s entries, or lies inside one of them. */
  ghost predicate Inside(e: Entry, d: Entry)
    decreases d
  {
    d.Dir? && exists x :: x in d.entries && (x == e || Inside(e, x))
  }

  /**
   * The entries of the tree below `d` that a scan visits, in the order it
   * makes their records, computed from the tree alone: each listed
   * subdirectory in case-insensitive order followed by what is visited
   * inside it, then the listed files in case-insensitive order.
   */
  function Visited(d: Entry, h: bool): seq<Entry>
    decreases d, 1
  {
    match d
    case File(_, _) => []
    case Dir(_, es) => VisitDirs(d, ListedDirs(es, h), h) + ListedFiles(es, h)
  }

  /** What is visited for the subdirectories `ds` of `owner`: each followed by its own visit. */
  function VisitDirs(owner: Entry, ds: seq<Entry>, h: bool): seq<Entry>
    requires owner.Dir? && forall x :: x in ds ==> x in owner.entries
    decreases owner, 0, |ds|
  {
    if ds == [] then []
    else
      var e := ds[|ds| - 1];
      assert e in ds;
      VisitDirs(owner, ds[..|ds| - 1], h) + [e] + Visited(e, h)
  }

  /** Everything a scan of `d` visits lies inside `d`. */
  lemma {:induction false} VisitedInside(d: Entry, h: bool)
    ensures forall x :: x in Visited(d, h) ==> Inside(x, d)
    decreases d, 1
  {
    if d.Dir? {
      var ds, fs := ListedDirs(d.entries, h), ListedFiles(d.entries, h);
      VisitDirsInside(d, ds, h);
      forall x | x in fs ensures Inside(x, d) {
        assert x in d.entries;
      }
    }
  }

  lemma {:induction false} VisitDirsInside(owner: Entry, ds: seq<Entry>, h: bool)
    requires owner.Dir? && forall x :: x in ds ==> x in owner.entries
    ensures forall x :: x in VisitDirs(owner, ds, h) ==> Inside(x, owner)
    decreases owner, 0, |ds|
  {
    if ds != [] {
      var e := ds[|ds| - 1];
      assert e in ds;
      VisitDirsInside(owner, ds[..|ds| - 1], h);
      VisitedInside(e, h);
      forall x | x in Visited(e, h) ensures Inside(x, owner) {
        assert e in owner.entries && Inside(x, e);
      }
      assert Inside(e, owner);
    }
  }

  /**
   * Record `k` shows entry `e`: the same name, kind and size, and, for a
   * directory, the records hanging off it are `e`'s listing.
   */
  ghost predicate ShowsEntry(B: seq<Item>, k: int, e: Entry, h: bool)
    requires 0 <= k < |B|
  {
    KidOfRecord(B[k]) == KidOfEntry(e)
    && (e.Dir? ==> Kids(ChildRecords(B, Some(DirId(k)))) == Listing(e.entries, h))
  }

  /** The records of `B` from index `a` on show the entries `src`, one each, in order. */
  ghost predicate ShowsEntries(B: seq<Item>, a: nat, src: seq<Entry>, h: bool)
  {
    a + |src| == |B| && forall i :: 0 <= i < |src| ==> ShowsEntry(B, a + i, src[i], h)
  }

  /** The records a call appends show, in order, the entries it visits. */
  lemma {:induction false} ProcessShows(d: Entry, path: string, P: Option<ItemId>, L: nat, h: bool,
                                        items: seq<Item>)
    requires ParentBefore(P, |items|) && Earlier(items)
    ensures ShowsEntries(Process(d, path, P, L, h, items), |items|, Visited(d, h), h)
    decreases d, 1
  {
    if d.Dir? {
      var dirs := ListedDirs(d.entries, h);
      DirLoopShows(d, dirs, path, P, L, h, items);
      FileLoopShows(ListedFiles(d.entries, h), path, P, L, h, DirLoop(d, dirs, path, P, L, h, items),
                    |items|, VisitDirs(d, dirs, h));
    }
  }

  lemma {:induction false} DirLoopShows(owner: Entry, ds: seq<Entry>, path: string, P: Option<ItemId>,
                                        L: nat, h: bool, items: seq<Item>)
    requires owner.Dir? && forall x :: x in ds ==> x in owner.entries
    requires forall x :: x in ds ==> x.Dir? && Listed(x.name, h)
    requires ParentBefore(P, |items|) && Earlier(items)
    ensures ShowsEntries(DirLoop(owner, ds, path, P, L, h, items), |items|, VisitDirs(owner, ds, h), h)
    decreases owner, 0, |ds|
  {
    if ds != [] {
      var init := ds[..|ds| - 1];
      var e := ds[|ds| - 1];
      assert e in ds;
      var pre := DirLoop(owner, init, path, P, L, h, items);
      DirLoopShows(owner, init, path, P, L, h, items);
      DirLoopFacts(owner, init, path, P, L, h, items);
      EarlierExtend(items, pre, P, L, h);
      DirStepShows(owner, pre, e, path, P, L, h, |items|, VisitDirs(owner, init, h));
    }
  }

  /**
   * One pass of the directory loop: the new record shows its subdirectory,
   * the records of the recursive call show what it visits, and the records
   * already in the block keep what they show.
   */
  lemma DirStepShows(owner: Entry, pre: seq<Item>, e: Entry, path: string, P: Option<ItemId>, L: nat,
                     h: bool, a: nat, src: seq<Entry>)
    requires owner.Dir? && e in owner.entries && e.Dir? && Listed(e.name, h)
    requires ParentBefore(P, a) && Earlier(pre) && ShowsEntries(pre, a, src, h)
    ensures ShowsEntries(DirStep(owner, pre, e, path, P, L, h), a, src + [e] + Visited(e, h), h)
    decreases owner, 0, 0
  {
    var x := DirItem(e, path, P, L, |pre|);
    var C := DirStep(owner, pre, e, path, P, L, h);
    PrefixOfSnoc(pre, x, C);
    EarlierSnoc(pre, x);
    ProcessFacts(e, Join(path, e.name), Some(DirId(|pre|)), L + 1, h, pre + [x]);
    ProcessShows(e, Join(path, e.name), Some(DirId(|pre|)), L + 1, h, pre + [x]);
    NewDirShows(owner, pre, e, path, P, L, h);
    KeepShows(pre, x, C, a, src, L + 1, h);
    JoinShows(pre, x, C, a, src, e, Visited(e, h), h);
  }

  /** The records before `x`, `x` itself and the records after it together show their entries. */
  lemma JoinShows(pre: seq<Item>, x: Item, C: seq<Item>, a: nat, src: seq<Entry>, e: Entry,
                  V: seq<Entry>, h: bool)
    requires pre + [x] <= C && a + |src| == |pre|
    requires forall i :: 0 <= i < |src| ==> ShowsEntry(C, a + i, src[i], h)
    requires |pre| < |C| && ShowsEntry(C, |pre|, e, h)
    requires ShowsEntries(C, |pre + [x]|, V, h)
    ensures ShowsEntries(C, a, src + [e] + V, h)
  {
    var all := src + [e] + V;
    assert a + |all| == |C|;
    forall i | 0 <= i < |all| ensures ShowsEntry(C, a + i, all[i], h) {
      if i < |src| {
        assert all[i] == src[i];
      } else if i == |src| {
        assert all[i] == e;
      } else {
        var v := i - |src| - 1;
        assert all[i] == V[v];
        assert ShowsEntry(C, |pre + [x]| + v, V[v], h);
      }
    }
  }

  /** The record a pass of the directory loop appends shows its subdirectory. */
  lemma NewDirShows(owner: Entry, pre: seq<Item>, e: Entry, path: string, P: Option<ItemId>, L: nat,
                    h: bool)
    requires owner.Dir? && e in owner.entries && e.Dir?
    requires ParentBefore(P, |pre|) && Earlier(pre)
    ensures |pre| < |DirStep(owner, pre, e, path, P, L, h)|
    ensures ShowsEntry(DirStep(owner, pre, e, path, P, L, h), |pre|, e, h)
  {
    var C := DirStep(owner, pre, e, path, P, L, h);
    PrefixOfSnoc(pre, DirItem(e, path, P, L, |pre|), C);
    EarlierSnoc(pre, DirItem(e, path, P, L, |pre|));
    ProcessTop(e, Join(path, e.name), Some(DirId(|pre|)), L + 1, h, pre + [DirItem(e, path, P, L, |pre|)]);
    NothingUnder(pre + [DirItem(e, path, P, L, |pre|)], |pre|);
    assert KidOfRecord(C[|pre|]) == KidOfEntry(e);
    assert Kids(ChildRecords(C, Some(DirId(|pre|)))) == Listing(e.entries, h);
  }

  /**
   * Appending a record whose parent is numbered before `a`, then a block
   * hanging off that record, leaves what the records from `a` on show as it was.
   */
  lemma KeepShows(pre: seq<Item>, x: Item, C: seq<Item>, a: nat, src: seq<Entry>, L: nat, h: bool)
    requires pre + [x] <= C && ShowsEntries(pre, a, src, h)
    requires ParentBefore(x.parentId, a)
    requires Facts(C, |pre + [x]|, Some(DirId(|pre|)), L, h)
    ensures forall i :: 0 <= i < |src| ==> ShowsEntry(C, a + i, src[i], h)
  {
    forall i | 0 <= i < |src| ensures ShowsEntry(C, a + i, src[i], h) {
      KeepShowsOne(pre, x, C, a + i, src[i], L, h);
    }
  }

  /** What one record `k` of `pre` shows, kept after `x` and the block hanging off it are appended. */
  lemma KeepShowsOne(pre: seq<Item>, x: Item, C: seq<Item>, k: nat, e: Entry, L: nat, h: bool)
    requires pre + [x] <= C && k < |pre| && ShowsEntry(pre, k, e, h)
    requires ParentBefore(x.parentId, k)
    requires Facts(C, |pre + [x]|, Some(DirId(|pre|)), L, h)
    ensures ShowsEntry(C, k, e, h)
  {
    PrefixOfSnoc(pre, x, C);
    assert C[k] == pre[k];
    if e.Dir? {
      NotUnder(C, |pre + [x]|, Some(DirId(|pre|)), L, h, Some(DirId(k)));
      ChildRecordsExtend(pre, C, Some(DirId(k)));
    }
  }

  lemma {:induction false} FileLoopShows(fs: seq<Entry>, path: string, P: Option<ItemId>, L: nat,
                                         h: bool, B: seq<Item>, a: nat, src: seq<Entry>)
    requires forall x :: x in fs ==> x.File?
    requires ParentBefore(P, a) && ShowsEntries(B, a, src, h)
    ensures ShowsEntries(FileLoop(fs, path, P, L, B), a, src + fs, h)
    decreases |fs|
  {
    if fs != [] {
      var init := fs[..|fs| - 1];
      var last := fs[|fs| - 1];
      assert last in fs;
      FileLoopShows(init, path, P, L, h, B, a, src);
      var pre := FileLoop(init, path, P, L, B);
      var x := FileItem(last, path, P, L, |pre|);
      var C := FileLoop(fs, path, P, L, B);
      assert C == pre + [x];
      FactsEmpty(C, Some(DirId(|pre|)), L, h);
      KeepShows(pre, x, C, a, src + init, L, h);
      var all := src + fs;
      assert all == (src + init) + [last];
      assert ShowsEntry(C, |pre|, last, h);
      forall i | 0 <= i < |all| ensures ShowsEntry(C, a + i, all[i], h) {
        if i < |src + init| {
          assert all[i] == (src + init)[i];
        }
      }
    }
  }
}
