/**
 * Facts about the records one call of `process_directory` appends.
 *
 * The scanner's counter `item_id` always equals the length of `items` (both
 * start at 0 and each append increments it), so a record's number is its
 * index in the list. A block is the part of the list from index `a` on,
 * appended by one call whose `parent_id` is `P` and whose `level` is `L`,
 * with `include_hidden` equal to `h`.
 */
module Blocks {
  import opened FileTree
  import opened Records

  /** Record `j` is record `k`'s parent: an earlier directory, one level up. */
  predicate ParentAt(B: seq<Item>, k: int, j: int)
  {
    0 <= j < k < |B| && B[j].isDir && B[k].parentId == Some(DirId(j))
    && B[k].level == B[j].level + 1
  }

  /** The index record `k`'s parent id points at, or -1 when it names no directory. */
  function ParentIndex(B: seq<Item>, k: int): int
    requires 0 <= k < |B|
  {
    match B[k].parentId
    case Some(DirId(m)) => m
    case _ => -1
  }

  /** Record `k` hangs off the block's own parent at the block's level, or off a record of the block. */
  predicate Hangs(B: seq<Item>, a: nat, P: Option<ItemId>, L: nat, k: int)
    requires 0 <= k < |B|
  {
    (B[k].parentId == P && B[k].level == L)
    || (a <= ParentIndex(B, k) && ParentAt(B, k, ParentIndex(B, k)))
  }

  /**
   * Record `k` of a block: its id is numbered `k`, it hangs off the block's
   * parent or an earlier record of the block, it sits at the block's level or
   * deeper, it passes the listing filter, and it has no children yet.
   */
  predicate RecordOK(B: seq<Item>, a: nat, P: Option<ItemId>, L: nat, h: bool, k: int)
    requires 0 <= k < |B|
  {
    B[k].id == IdFor(B[k].isDir, k) && Hangs(B, a, P, L, k) && B[k].level >= L
    && Listed(B[k].name, h) && B[k].children == []
  }

  /** Nothing at the parent's level or above sits between parent `j` and child `k`. */
  ghost predicate Nested(B: seq<Item>, a: nat, k: int, j: int, i: int)
  {
    a <= j && ParentAt(B, k, j) && j < i < k ==> B[i].level > B[j].level
  }

  /** Every record of the block from `a` on is well formed, and descendants are contiguous. */
  ghost predicate Facts(B: seq<Item>, a: nat, P: Option<ItemId>, L: nat, h: bool)
  {
    a <= |B|
    && (forall k :: a <= k < |B| ==> RecordOK(B, a, P, L, h, k))
    && (forall k, j, i :: Nested(B, a, k, j, i))
  }

  /** The block's parent is absent or a directory numbered before the block. */
  predicate ParentBefore(P: Option<ItemId>, a: nat)
  {
    P.None? || (P.value.DirId? && P.value.n < a)
  }

  /** Every record's parent id points at an earlier index (or at no directory). */
  ghost predicate Earlier(B: seq<Item>)
  {
    forall k :: 0 <= k < |B| ==> ParentIndex(B, k) < k
  }

  /** A block that appends nothing. */
  lemma FactsEmpty(B: seq<Item>, P: Option<ItemId>, L: nat, h: bool)
    ensures Facts(B, |B|, P, L, h)
  {
    forall k, j, i ensures Nested(B, |B|, k, j, i) {
    }
  }

  /**
   * A block from `a` followed by a block from `|B|` with the same parent and
   * level is one block from `a`.
   */
  lemma FactsExtend(B: seq<Item>, C: seq<Item>, a: nat, P: Option<ItemId>, L: nat, h: bool)
    requires ParentBefore(P, a) && B <= C
    requires Facts(B, a, P, L, h) && Facts(C, |B|, P, L, h)
    ensures Facts(C, a, P, L, h)
  {
    forall k | a <= k < |C| ensures RecordOK(C, a, P, L, h, k) {
      if k < |B| {
        assert RecordOK(B, a, P, L, h, k);
        assert C[k] == B[k];
        if !(B[k].parentId == P && B[k].level == L) {
          var j := ParentIndex(B, k);
          assert ParentAt(B, k, j);
          assert C[j] == B[j];
        }
      } else {
        assert RecordOK(C, |B|, P, L, h, k);
      }
    }
    forall k, j, i ensures Nested(C, a, k, j, i) {
      if a <= j && ParentAt(C, k, j) && j < i < k {
        if k < |B| {
          assert C[k] == B[k] && C[j] == B[j] && C[i] == B[i];
          assert Nested(B, a, k, j, i);
        } else {
          assert RecordOK(C, |B|, P, L, h, k);
          assert Nested(C, |B|, k, j, i);
        }
      }
    }
  }

  /** One appended record hanging off the block's parent is a block. */
  lemma FactsOne(B: seq<Item>, x: Item, P: Option<ItemId>, L: nat, h: bool)
    requires x.id == IdFor(x.isDir, |B|) && x.parentId == P && x.level == L
    requires Listed(x.name, h) && x.children == []
    ensures Facts(B + [x], |B|, P, L, h)
  {
    var C := B + [x];
    assert RecordOK(C, |B|, P, L, h, |B|);
    forall k, j, i ensures Nested(C, |B|, k, j, i) {
    }
  }

  /**
   * A directory record `x` numbered `|pre|` followed by the block its own
   * call appends forms a block hanging off `x`'s parent.
   */
  lemma FactsHead(pre: seq<Item>, x: Item, C: seq<Item>, P: Option<ItemId>, L: nat, h: bool)
    requires pre + [x] <= C
    requires x.id == DirId(|pre|) && x.isDir && x.level == L && x.parentId == P
    requires x.children == [] && Listed(x.name, h)
    requires Facts(C, |pre + [x]|, Some(DirId(|pre|)), L + 1, h)
    ensures Facts(C, |pre|, P, L, h)
  {
    var p := |pre|;
    assert C[p] == (pre + [x])[p] == x;
    forall k | p <= k < |C| ensures RecordOK(C, p, P, L, h, k) {
      if k > p {
        assert RecordOK(C, p + 1, Some(DirId(p)), L + 1, h, k);
        if C[k].parentId == Some(DirId(p)) && C[k].level == L + 1 {
          assert ParentAt(C, k, p);
        }
      }
    }
    forall k, j, i ensures Nested(C, p, k, j, i) {
      if p <= j && ParentAt(C, k, j) && j < i < k {
        if j > p {
          assert Nested(C, p + 1, k, j, i);
        } else {
          assert RecordOK(C, p + 1, Some(DirId(p)), L + 1, h, i);
        }
      }
    }
  }

  /** A block, then a directory record, then that directory's own block, is still a block. */
  lemma FactsStep(pre: seq<Item>, x: Item, C: seq<Item>, a: nat, P: Option<ItemId>, L: nat, h: bool)
    requires ParentBefore(P, a) && Facts(pre, a, P, L, h)
    requires pre + [x] <= C
    requires x.id == DirId(|pre|) && x.isDir && x.level == L && x.parentId == P
    requires x.children == [] && Listed(x.name, h)
    requires Facts(C, |pre + [x]|, Some(DirId(|pre|)), L + 1, h)
    ensures Facts(C, a, P, L, h)
  {
    FactsHead(pre, x, C, P, L, h);
    assert pre <= C by {
      assert forall k :: 0 <= k < |pre| ==> C[k] == (pre + [x])[k] == pre[k];
    }
    FactsExtend(pre, C, a, P, L, h);
  }

  /** No record of a block from `a` names as parent an id other than `Q` and the block's own directories. */
  lemma NotUnder(C: seq<Item>, a: nat, Q: Option<ItemId>, L: nat, h: bool, q: Option<ItemId>)
    requires Facts(C, a, Q, L, h) && q != Q
    requires q.Some? && q.value.DirId? ==> q.value.n < a
    ensures forall k :: a <= k < |C| ==> C[k].parentId != q
  {
    forall k | a <= k < |C| ensures C[k].parentId != q {
      assert RecordOK(C, a, Q, L, h, k);
    }
  }

  /** Appending a block keeps every parent id pointing backwards. */
  lemma EarlierExtend(B: seq<Item>, C: seq<Item>, P: Option<ItemId>, L: nat, h: bool)
    requires Earlier(B) && B <= C
    requires ParentBefore(P, |B|) && Facts(C, |B|, P, L, h)
    ensures Earlier(C)
  {
    forall k | 0 <= k < |C| ensures ParentIndex(C, k) < k {
      if k < |B| {
        assert C[k] == B[k];
        assert ParentIndex(B, k) < k;
      } else {
        assert RecordOK(C, |B|, P, L, h, k);
      }
    }
  }

  /** Appending a record whose parent id points before it keeps every parent id pointing backwards. */
  lemma EarlierSnoc(B: seq<Item>, x: Item)
    requires Earlier(B)
    requires ParentBefore(x.parentId, |B|)
    ensures Earlier(B + [x])
  {
    forall k | 0 <= k < |B| + 1 ensures ParentIndex(B + [x], k) < k {
      if k < |B| {
        assert (B + [x])[k] == B[k];
        assert ParentIndex(B, k) < k;
      }
    }
  }

  /** When parent ids point backwards, nothing yet hangs off the last record or anything after it. */
  lemma NothingUnder(B: seq<Item>, m: nat)
    requires Earlier(B) && |B| <= m + 1
    ensures ChildRecords(B, Some(DirId(m))) == []
  {
    forall k | 0 <= k < |B| ensures B[k].parentId != Some(DirId(m)) {
      assert ParentIndex(B, k) < k;
    }
    ChildRecordsNone(B, Some(DirId(m)));
  }
}
