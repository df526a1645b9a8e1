/**
 * The scanner's item records, their ids, and the parent/child linkage rule
 * shared by the scanner (`scan_directory`'s final loop) and the browsing
 * engine (`buildHierarchy`).
 */
module Records {
  import opened Text
  import opened Sizes
  import opened Icons

  datatype Option<T> = None | Some(value: T)

  /**
   * The id of a record: "dir_k" or "file_k", where `k` is the running counter
   * when the record was made. Ids are kept as the pair (kind, counter); their
   * text is `IdText`, which is injective, so comparing or keying by either is
   * the same.
   */
  datatype ItemId = DirId(n: nat) | FileId(n: nat)

  /** The id of the record made when the running counter is `k`. */
  function IdFor(isDir: bool, k: nat): (r: ItemId)
    ensures r.n == k && (r.DirId? <==> isDir)
  {
    if isDir then DirId(k) else FileId(k)
  }

  /** The text of an id, as the scanner formats it. */
  function IdText(id: ItemId): (r: string)
    ensures |r| > 0
  {
    (if id.DirId? then "dir_" else "file_") + NatToString(id.n)
  }

  /** Ids never collide as text: the kind and the counter can be read back. */
  lemma IdTextInjective(a: ItemId, b: ItemId)
    requires IdText(a) == IdText(b)
    ensures a == b
  {
    var s := IdText(a);
    assert s[0] == (if a.DirId? then 'd' else 'f');
    assert s[0] == (if b.DirId? then 'd' else 'f');
    if a.DirId? {
      assert NatToString(a.n) == s[4..] == NatToString(b.n);
    } else {
      assert NatToString(a.n) == s[5..] == NatToString(b.n);
    }
    NatToStringInjective(a.n, b.n);
  }

  /**
   * One entry of `DirectoryScanner.items`. `path` is the absolute path and
   * `fullPath` the joined path; the modification time is not modelled. A
   * `parentId` is never the empty string (`IdText` is non-empty), so the
   * source's truthiness test on it is a test for presence.
   *
   * The scanner fills `size_formatted`, `extension` and `icon_class` from the
   * other fields in every record it makes, so here they are derived members.
   */
  datatype Item = Item(
    id: ItemId,
    name: string,
    path: string,
    fullPath: string,
    sizeBytes: nat,
    isDir: bool,
    level: nat,
    parentId: Option<ItemId>,
    children: seq<ItemId>)
  {
    /** `format_size(size_bytes)`. */
    function SizeFormatted(): SizeText
    {
      FormattedSize(sizeBytes)
    }

    /** Empty for a directory; the lower-cased `splitext` extension for a file. */
    function Extension(): string
    {
      if isDir then "" else FileExtension(name)
    }

    /** "folder" for a directory; the table entry for a file. */
    function IconClassName(): string
    {
      IconClass(name, isDir)
    }
  }

  /** The key a record is stored under: its id. */
  function ItemKey(x: Item): ItemId
  {
    x.id
  }

  /**
   * The id index a keyed store ends with when the elements are stored in
   * order (Python's dict comprehension `item_map`, the script's
   * `window.itemMap`): each id maps to the position of its last element.
   */
  function IndexOf<T>(xs: seq<T>, key: T -> ItemId): (M: map<ItemId, nat>)
    ensures forall q :: q in M ==> M[q] < |xs| && key(xs[M[q]]) == q
    ensures forall k :: 0 <= k < |xs| ==> key(xs[k]) in M
  {
    if xs == [] then map[]
    else IndexOf(xs[..|xs| - 1], key)[key(xs[|xs| - 1]) := |xs| - 1]
  }

  /** A later element with the same id replaces an earlier one: none after the indexed one has that id. */
  lemma {:induction false} IndexOfLast<T>(xs: seq<T>, key: T -> ItemId, q: ItemId, j: nat)
    requires q in IndexOf(xs, key) && IndexOf(xs, key)[q] < j < |xs|
    ensures key(xs[j]) != q
  {
    var n := |xs| - 1;
    var init := xs[..n];
    var last := key(xs[n]);
    if last != q {
      var M, M0 := IndexOf(xs, key), IndexOf(init, key);
      assert M == M0[last := n];
      assert q in M0 && M0[q] == M[q];
      if j < n {
        assert init[j] == xs[j];
        IndexOfLast(init, key, q, j);
      }
    }
  }

  /**
   * The children the linkage gives the record with id `q`: the ids of all
   * records whose parent is `q`, in list order.
   */
  function ChildIds(items: seq<Item>, q: ItemId): (r: seq<ItemId>)
    ensures |r| <= |items|
  {
    if items == [] then []
    else
      var last := items[|items| - 1];
      ChildIds(items[..|items| - 1], q) + (if last.parentId == Some(q) then [last.id] else [])
  }

  /** A child id really belongs to a record whose parent is `q`, and every such record is listed. */
  lemma {:induction false} ChildIdsMembership(items: seq<Item>, q: ItemId, c: ItemId)
    ensures c in ChildIds(items, q) <==>
            exists k :: 0 <= k < |items| && items[k].id == c && items[k].parentId == Some(q)
  {
    if items != [] {
      var init := items[..|items| - 1];
      ChildIdsMembership(init, q, c);
      if exists k :: 0 <= k < |init| && init[k].id == c && init[k].parentId == Some(q) {
        var k :| 0 <= k < |init| && init[k].id == c && init[k].parentId == Some(q);
        assert items[k] == init[k];
      }
    }
  }

  lemma {:induction false} ChildIdsAppend(a: seq<Item>, b: seq<Item>, q: ItemId)
    ensures ChildIds(a + b, q) == ChildIds(a, q) + ChildIds(b, q)
    decreases |b|
  {
    if b == [] {
      assert a + b == a;
    } else {
      assert (a + b)[..|a + b| - 1] == a + b[..|b| - 1];
      ChildIdsAppend(a, b[..|b| - 1], q);
    }
  }

  /** The records whose parent is `q`, in list order (`q == None`: the top-level records). */
  function ChildRecords(items: seq<Item>, q: Option<ItemId>): (r: seq<Item>)
    ensures |r| <= |items|
  {
    if items == [] then []
    else
      var last := items[|items| - 1];
      ChildRecords(items[..|items| - 1], q) + (if last.parentId == q then [last] else [])
  }

  lemma {:induction false} ChildRecordsAppend(a: seq<Item>, b: seq<Item>, q: Option<ItemId>)
    ensures ChildRecords(a + b, q) == ChildRecords(a, q) + ChildRecords(b, q)
    decreases |b|
  {
    if b == [] {
      assert a + b == a;
    } else {
      assert (a + b)[..|a + b| - 1] == a + b[..|b| - 1];
      ChildRecordsAppend(a, b[..|b| - 1], q);
    }
  }

  /** A list in which no record names `q` as parent has no records under `q`. */
  lemma {:induction false} ChildRecordsNone(items: seq<Item>, q: Option<ItemId>)
    requires forall k :: 0 <= k < |items| ==> items[k].parentId != q
    ensures ChildRecords(items, q) == []
  {
    if items != [] {
      ChildRecordsNone(items[..|items| - 1], q);
    }
  }

  /** Records appended after `B` that do not name `q` as parent leave `q`'s records as they were. */
  lemma {:induction false} ChildRecordsExtend(B: seq<Item>, C: seq<Item>, q: Option<ItemId>)
    requires B <= C
    requires forall k :: |B| <= k < |C| ==> C[k].parentId != q
    ensures ChildRecords(C, q) == ChildRecords(B, q)
    decreases |C|
  {
    if |C| == |B| {
      assert C == B;
    } else {
      var init := C[..|C| - 1];
      assert B <= init;
      ChildRecordsExtend(B, init, q);
      assert ChildRecords(C, q) == ChildRecords(init, q) + [];
    }
  }

  /** Appending one record adds it to its own parent's records. */
  lemma ChildRecordsSnoc(B: seq<Item>, x: Item)
    ensures ChildRecords(B + [x], x.parentId) == ChildRecords(B, x.parentId) + [x]
  {
    assert (B + [x])[..|B|] == B;
  }

  /** The ids of a list of records. */
  function Ids(rs: seq<Item>): (r: seq<ItemId>)
    ensures |r| == |rs| && forall i :: 0 <= i < |rs| ==> r[i] == rs[i].id
  {
    seq(|rs|, i requires 0 <= i < |rs| => rs[i].id)
  }

  /** The linkage's children of `q` are the ids of the records under `q`. */
  lemma {:induction false} ChildIdsAreIds(items: seq<Item>, q: ItemId)
    ensures ChildIds(items, q) == Ids(ChildRecords(items, Some(q)))
  {
    if items != [] {
      var init := items[..|items| - 1];
      ChildIdsAreIds(init, q);
      var last := items[|items| - 1];
      var rs := ChildRecords(init, Some(q));
      if last.parentId == Some(q) {
        assert Ids(rs + [last]) == Ids(rs) + [last.id];
      } else {
        assert ChildRecords(items, Some(q)) == rs + [];
        assert rs + [] == rs;
      }
    }
  }

  /** What a listing shows of a record: its name, its kind and its size. */
  datatype Kid = Kid(name: string, isDir: bool, sizeBytes: nat)

  function KidOfRecord(x: Item): Kid
  {
    Kid(x.name, x.isDir, x.sizeBytes)
  }

  function Kids(rs: seq<Item>): (r: seq<Kid>)
    ensures |r| == |rs| && forall i :: 0 <= i < |rs| ==> r[i] == KidOfRecord(rs[i])
  {
    seq(|rs|, i requires 0 <= i < |rs| => KidOfRecord(rs[i]))
  }

  lemma KidsSnoc(a: seq<Item>, x: Item)
    ensures Kids(a + [x]) == Kids(a) + [KidOfRecord(x)]
  {
  }

  // ---------------------------------------------------------------------------
  // The scanner's counters, as functions of the item list
  // ---------------------------------------------------------------------------

  function CountDirs(items: seq<Item>): nat
  {
    if items == [] then 0
    else CountDirs(items[..|items| - 1]) + (if items[|items| - 1].isDir then 1 else 0)
  }

  function CountFiles(items: seq<Item>): nat
  {
    if items == [] then 0
    else CountFiles(items[..|items| - 1]) + (if items[|items| - 1].isDir then 0 else 1)
  }

  /** The sum of `size_bytes` over the file records only. */
  function FileBytes(items: seq<Item>): nat
  {
    if items == [] then 0
    else
      FileBytes(items[..|items| - 1])
      + (if items[|items| - 1].isDir then 0 else items[|items| - 1].sizeBytes)
  }

  /** Appending one record bumps exactly one counter, and the byte total only for a file. */
  lemma CountsSnoc(items: seq<Item>, x: Item)
    ensures CountDirs(items + [x]) == CountDirs(items) + (if x.isDir then 1 else 0)
    ensures CountFiles(items + [x]) == CountFiles(items) + (if x.isDir then 0 else 1)
    ensures FileBytes(items + [x]) == FileBytes(items) + (if x.isDir then 0 else x.sizeBytes)
  {
    assert (items + [x])[..|items|] == items;
  }

  /** Every record is counted once, as a folder or as a file. */
  lemma {:induction false} CountsCoverItems(items: seq<Item>)
    ensures CountDirs(items) + CountFiles(items) == |items|
  {
    if items != [] {
      CountsCoverItems(items[..|items| - 1]);
    }
  }

  /** A list that starts with `pre + [x]` starts with `pre` and holds `x` at index `|pre|`. */
  lemma PrefixOfSnoc(pre: seq<Item>, x: Item, C: seq<Item>)
    requires pre + [x] <= C
    ensures pre <= C && |pre| < |C| && C[|pre|] == x
  {
    assert forall k :: 0 <= k < |pre| ==> C[k] == (pre + [x])[k] == pre[k];
    assert C[|pre|] == (pre + [x])[|pre|];
  }
}
