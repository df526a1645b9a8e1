/**
 * The progress count of `scan_directory`: the `total_items` it walks the tree
 * for before the scan, against the number of records the scan then makes
 * (the `processed` counter reaches exactly that number).
 *
 * The walk prunes only directories whose name starts with '.', while the
 * listing of `process_directory` also drops directories named '~…' or '$…'.
 * Such a directory, with everything under it, is counted but never
 * processed. `ListedCount` is the count with the listing's own filter; it
 * equals the number of records a scan makes.
 */
module Progress {
  import opened Text
  import opened FileTree
  import opened Records
  import opened Emit
  import opened Linking
  import opened Scanner

  /** The count with the listing's filter applied to directories as well as files. */
  function ListedCount(e: Entry, h: bool): nat
  {
    match e
    case File(_, _) => 0
    case Dir(_, es) => ListedCountAll(es, h)
  }

  /** What the entries of one directory add to `ListedCount`, their subtrees included. */
  function ListedCountAll(es: seq<Entry>, h: bool): nat
  {
    if es == [] then 0
    else
      var e := es[|es| - 1];
      ListedCountAll(es[..|es| - 1], h) + (if Listed(e.name, h) then 1 + ListedCount(e, h) else 0)
  }

  /** The records one listed entry accounts for: its own, and those of its subtree. */
  function Weight(e: Entry, h: bool): nat
  {
    1 + ListedCount(e, h)
  }

  /** The records a list of listed entries accounts for. */
  function SumWeights(es: seq<Entry>, h: bool): nat
  {
    if es == [] then 0 else SumWeights(es[..|es| - 1], h) + Weight(es[|es| - 1], h)
  }

  lemma {:induction false} SumWeightsAppend(a: seq<Entry>, b: seq<Entry>, h: bool)
    ensures SumWeights(a + b, h) == SumWeights(a, h) + SumWeights(b, h)
    decreases |b|
  {
    if b == [] {
      assert a + b == a;
    } else {
      assert (a + b)[..|a + b| - 1] == a + b[..|b| - 1];
      SumWeightsAppend(a, b[..|b| - 1], h);
    }
  }

  lemma SumWeightsOne(x: Entry, h: bool)
    ensures SumWeights([x], h) == Weight(x, h)
  {
    assert [x][..0] == [];
  }

  /** Inserting into the sorted list adds the weight of the inserted entry. */
  lemma {:induction false} SumWeightsInsert(x: Entry, s: seq<Entry>, h: bool)
    ensures SumWeights(Insert(x, s), h) == Weight(x, h) + SumWeights(s, h)
  {
    SumWeightsOne(x, h);
    if s == [] {
    } else if !LowerLe(s[0].name, x.name) {
      SumWeightsAppend([x], s, h);
    } else {
      SumWeightsOne(s[0], h);
      SumWeightsInsert(x, s[1..], h);
      SumWeightsAppend([s[0]], Insert(x, s[1..]), h);
      SumWeightsAppend([s[0]], s[1..], h);
      assert s == [s[0]] + s[1..];
    }
  }

  /** Sorting by name leaves the total weight unchanged. */
  lemma {:induction false} SumWeightsSort(s: seq<Entry>, h: bool)
    ensures SumWeights(SortByName(s), h) == SumWeights(s, h)
  {
    if s != [] {
      var init, last := s[..|s| - 1], s[|s| - 1];
      SumWeightsSort(init, h);
      SumWeightsInsert(last, SortByName(init), h);
    }
  }

  /** The weight of a list is that of its directories plus that of its files. */
  lemma {:induction false} SumWeightsSplit(es: seq<Entry>, h: bool)
    ensures SumWeights(es, h) == SumWeights(DirsOf(es), h) + SumWeights(FilesOf(es), h)
  {
    if es != [] {
      var init, x := es[..|es| - 1], es[|es| - 1];
      var ds, fs := DirsOf(init), FilesOf(init);
      SumWeightsSplit(init, h);
      assert SumWeights(es, h) == SumWeights(init, h) + Weight(x, h);
      SumWeightsOne(x, h);
      if x.Dir? {
        assert DirsOf(es) == ds + [x] && FilesOf(es) == fs + [];
        SumWeightsAppend(ds, [x], h);
        assert fs + [] == fs;
      } else {
        assert DirsOf(es) == ds + [] && FilesOf(es) == fs + [x];
        SumWeightsAppend(fs, [x], h);
        assert ds + [] == ds;
      }
    }
  }

  /** A file accounts for its own record only. */
  lemma {:induction false} SumWeightsFiles(fs: seq<Entry>, h: bool)
    requires forall x :: x in fs ==> x.File?
    ensures SumWeights(fs, h) == |fs|
  {
    if fs != [] {
      assert fs[|fs| - 1] in fs;
      SumWeightsFiles(fs[..|fs| - 1], h);
    }
  }

  /** A directory's count is the weight of its listed entries. */
  lemma {:induction false} ListedCountAllWeights(es: seq<Entry>, h: bool)
    ensures ListedCountAll(es, h) == SumWeights(ListedOf(es, h), h)
  {
    if es != [] {
      var init, x := es[..|es| - 1], es[|es| - 1];
      var ls := ListedOf(init, h);
      ListedCountAllWeights(init, h);
      if Listed(x.name, h) {
        assert ListedCountAll(es, h) == ListedCountAll(init, h) + Weight(x, h);
        assert ListedOf(es, h) == ls + [x];
        SumWeightsAppend(ls, [x], h);
        SumWeightsOne(x, h);
      } else {
        assert ListedCountAll(es, h) == ListedCountAll(init, h);
        assert ListedOf(es, h) == ls + [];
        assert ls + [] == ls;
      }
    }
  }

  /** `process_directory` on `d` appends one record per listed entry of its subtree. */
  lemma {:induction false} ProcessLength(d: Entry, path: string, P: Option<ItemId>, L: nat, h: bool,
                                         items: seq<Item>)
    ensures |Process(d, path, P, L, h, items)| == |items| + ListedCount(d, h)
    decreases d, 1
  {
    match d
    case File(_, _) =>
    case Dir(_, es) =>
      var ds, fs := ListedDirs(es, h), ListedFiles(es, h);
      DirLoopLength(d, ds, path, P, L, h, items);
      SumWeightsSort(DirsOf(ListedOf(es, h)), h);
      SumWeightsSort(FilesOf(ListedOf(es, h)), h);
      SumWeightsFiles(fs, h);
      SumWeightsSplit(ListedOf(es, h), h);
      ListedCountAllWeights(es, h);
  }

  /** The directory loop appends the records its subdirectories account for. */
  lemma {:induction false} DirLoopLength(owner: Entry, ds: seq<Entry>, path: string, P: Option<ItemId>, L: nat,
                                         h: bool, items: seq<Item>)
    requires owner.Dir? && forall x :: x in ds ==> x in owner.entries
    ensures |DirLoop(owner, ds, path, P, L, h, items)| == |items| + SumWeights(ds, h)
    decreases owner, 0, |ds|
  {
    if ds != [] {
      var init := ds[..|ds| - 1];
      assert ds[|ds| - 1] in ds;
      DirLoopLength(owner, init, path, P, L, h, items);
      DirStepLength(owner, DirLoop(owner, init, path, P, L, h, items), ds[|ds| - 1], path, P, L, h);
    }
  }

  /** One pass of the directory loop appends the subdirectory's record and those of its subtree. */
  lemma DirStepLength(owner: Entry, pre: seq<Item>, e: Entry, path: string, P: Option<ItemId>, L: nat, h: bool)
    requires owner.Dir? && e in owner.entries
    ensures |DirStep(owner, pre, e, path, P, L, h)| == |pre| + Weight(e, h)
    decreases owner, 0, 0
  {
    ProcessLength(e, Join(path, e.name), Some(DirId(|pre|)), L + 1, h, pre + [DirItem(e, path, P, L, |pre|)]);
  }

  /** A scan makes exactly `ListedCount` records, so the corrected count is where progress ends. */
  lemma ScanCount(root: Entry, rootPath: string, h: bool)
    ensures |Scanned(root, rootPath, h)| == ListedCount(root, h)
  {
    ProcessLength(root, rootPath, None, 0, h, []);
  }

  // ---------------------------------------------------------------------------
  // The count as written
  // ---------------------------------------------------------------------------

  /** With hidden entries included nothing is filtered, and the count as written is right. */
  lemma {:induction false} PreCountWithHidden(e: Entry)
    ensures PreCount(e, true) == ListedCount(e, true)
    decreases e, 1
  {
    match e
    case File(_, _) =>
    case Dir(_, es) => PreCountAllWithHidden(es);
  }

  lemma {:induction false} PreCountAllWithHidden(es: seq<Entry>)
    ensures PreCountAll(es, true) == ListedCountAll(es, true)
    decreases es, 0
  {
    if es != [] {
      PreCountAllWithHidden(es[..|es| - 1]);
      PreCountWithHidden(es[|es| - 1]);
    }
  }

  /** The count as written never falls short of the records made: progress never passes its total. */
  lemma {:induction false} PreCountAtLeast(e: Entry, h: bool)
    ensures ListedCount(e, h) <= PreCount(e, h)
    decreases e, 1
  {
    match e
    case File(_, _) =>
    case Dir(_, es) => PreCountAllAtLeast(es, h);
  }

  lemma {:induction false} PreCountAllAtLeast(es: seq<Entry>, h: bool)
    ensures ListedCountAll(es, h) <= PreCountAll(es, h)
    decreases es, 0
  {
    if es != [] {
      PreCountAllAtLeast(es[..|es| - 1], h);
      PreCountAtLeast(es[|es| - 1], h);
    }
  }

  /**
   * Without hidden entries, a root holding only an empty directory "~cache"
   * is counted as one item, but the scan makes no record, so progress stops
   * short of its total.
   */
  lemma PreCountOvercounts()
    ensures var root := Dir("r", [Dir("~cache", [])]);
      PreCount(root, false) == 1 && |Scanned(root, "/r", false)| == 0
  {
    var root := Dir("r", [Dir("~cache", [])]);
    var es := [Dir("~cache", [])];
    assert !Listed("~cache", false);
    assert ListedOf(es, false) == [] by {
      assert es[..0] == [];
    }
    assert PreCountAll(es, false) == 1 by {
      assert es[..0] == [];
    }
  }
}
