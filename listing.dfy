/**
 * What a directory's record lists under it: its listed subdirectories in
 * case-insensitive order, then its listed files in case-insensitive order,
 * each shown by name, kind and size.
 */
module Listings {
  import opened Text
  import opened FileTree
  import opened Records

  /** What a listing shows of a tree entry: a directory with its folder size, a file with its size. */
  function KidOfEntry(e: Entry): Kid
  {
    Kid(e.name, e.Dir?, if e.Dir? then FolderSize(e) else e.size)
  }

  function EntryKids(es: seq<Entry>): (r: seq<Kid>)
    ensures |r| == |es| && forall i :: 0 <= i < |es| ==> r[i] == KidOfEntry(es[i])
  {
    seq(|es|, i requires 0 <= i < |es| => KidOfEntry(es[i]))
  }

  /**
   * What `process_directory` lists for a directory with entries `es`: the
   * listed subdirectories in case-insensitive order, then the listed files in
   * case-insensitive order.
   */
  function Listing(es: seq<Entry>, h: bool): seq<Kid>
  {
    EntryKids(ListedDirs(es, h)) + EntryKids(ListedFiles(es, h))
  }

  /** Kids in listing order: directories before files, each group in case-insensitive order. */
  predicate InListingOrder(a: Kid, b: Kid)
  {
    (a.isDir && !b.isDir) || (a.isDir == b.isDir && LowerLe(a.name, b.name))
  }

  /** Sorted directories followed by sorted files are in listing order. */
  lemma KidsInOrder(ds: seq<Entry>, fs: seq<Entry>, i: nat, j: nat)
    requires SortedByName(ds) && SortedByName(fs)
    requires forall x :: x in ds ==> x.Dir?
    requires forall x :: x in fs ==> x.File?
    requires i < j < |ds| + |fs|
    ensures var r := EntryKids(ds) + EntryKids(fs); InListingOrder(r[i], r[j])
  {
    var n := |ds|;
    var r := EntryKids(ds) + EntryKids(fs);
    if j < n {
      assert r[i] == KidOfEntry(ds[i]) && r[j] == KidOfEntry(ds[j]);
    } else if i < n {
      assert r[i] == KidOfEntry(ds[i]) && r[j] == KidOfEntry(fs[j - n]);
      assert ds[i] in ds && fs[j - n] in fs;
    } else {
      assert r[i] == KidOfEntry(fs[i - n]) && r[j] == KidOfEntry(fs[j - n]);
      assert fs[i - n] in fs && fs[j - n] in fs;
    }
  }

  /** A directory's listing is in listing order. */
  lemma ListingOrder(es: seq<Entry>, h: bool, i: nat, j: nat)
    requires i < j < |Listing(es, h)|
    ensures InListingOrder(Listing(es, h)[i], Listing(es, h)[j])
  {
    KidsInOrder(ListedDirs(es, h), ListedFiles(es, h), i, j);
  }

  /** The kids of a sequence of entries are exactly the kids of its members. */
  lemma EntryKidsMembers(xs: seq<Entry>)
    ensures forall e :: e in xs ==> KidOfEntry(e) in EntryKids(xs)
    ensures forall x :: x in EntryKids(xs) ==> exists e :: e in xs && x == KidOfEntry(e)
  {
    var r := EntryKids(xs);
    forall e | e in xs ensures KidOfEntry(e) in r {
      var i :| 0 <= i < |xs| && xs[i] == e;
      assert r[i] == KidOfEntry(e);
    }
    forall x | x in r ensures exists e :: e in xs && x == KidOfEntry(e) {
      var i :| 0 <= i < |r| && r[i] == x;
      assert xs[i] in xs;
    }
  }

  /** A directory's listing shows exactly the entries that pass the filter. */
  lemma ListingMembers(es: seq<Entry>, h: bool)
    ensures forall e :: e in es && Listed(e.name, h) ==> KidOfEntry(e) in Listing(es, h)
    ensures forall x :: x in Listing(es, h) ==> exists e :: e in es && Listed(e.name, h) && x == KidOfEntry(e)
  {
    var ds, fs := ListedDirs(es, h), ListedFiles(es, h);
    EntryKidsMembers(ds);
    EntryKidsMembers(fs);
  }

  lemma EntryKidsSnoc(xs: seq<Entry>)
    requires xs != []
    ensures EntryKids(xs) == EntryKids(xs[..|xs| - 1]) + [KidOfEntry(xs[|xs| - 1])]
  {
  }
}
