/**
 * The last step of `scan_directory`: index the records by id (a later record
 * replaces an earlier one with the same id, as in a dict comprehension),
 * then, in list order, append each record's id to the `children` of the
 * record its `parent_id` names, when that id is indexed.
 */
module Linking {
  import opened Records

  /** Record `k` carries the number `k` in its id. */
  ghost predicate IdsByIndex(B: seq<Item>)
  {
    forall k :: 0 <= k < |B| ==> B[k].id.n == k
  }

  /** When ids carry their index, the index maps each record's id to that record. */
  lemma IndexOfNumbered(B: seq<Item>, k: nat)
    requires IdsByIndex(B) && k < |B|
    ensures IndexOf(B, ItemKey)[B[k].id] == k
  {
    var M := IndexOf(B, ItemKey);
    assert B[M[B[k].id]].id.n == B[k].id.n;
  }

  /**
   * The ids the link loop, run over the records `A`, appends to record `p`:
   * those of the records whose parent id is indexed and indexed at `p`.
   */
  function LinkedChildren(A: seq<Item>, M: map<ItemId, nat>, p: nat): (r: seq<ItemId>)
    ensures |r| <= |A|
  {
    if A == [] then []
    else
      var x := A[|A| - 1];
      LinkedChildren(A[..|A| - 1], M, p)
      + (if x.parentId.Some? && x.parentId.value in M && M[x.parentId.value] == p then [x.id] else [])
  }

  /** `x` with `extra` appended to its children. */
  function WithChildren(x: Item, extra: seq<ItemId>): (r: Item)
    ensures r.children == x.children + extra
    ensures r.(children := x.children) == x
  {
    x.(children := x.children + extra)
  }

  /** The records after the link loop. */
  function Linked(B: seq<Item>): (r: seq<Item>)
    ensures |r| == |B|
    ensures forall k :: 0 <= k < |B| ==> r[k] == WithChildren(B[k], LinkedChildren(B, IndexOf(B, ItemKey), k))
  {
    seq(|B|, k requires 0 <= k < |B| => WithChildren(B[k], LinkedChildren(B, IndexOf(B, ItemKey), k)))
  }

  /**
   * When the index picks out exactly the id `q` at `p`, the link loop gives
   * `p` the ids of the records whose parent is `q`, in list order.
   */
  lemma {:induction false} LinkedChildrenOf(A: seq<Item>, M: map<ItemId, nat>, p: nat, q: ItemId)
    requires forall r :: r in M && M[r] == p <==> r == q
    ensures LinkedChildren(A, M, p) == ChildIds(A, q)
  {
    if A != [] {
      LinkedChildrenOf(A[..|A| - 1], M, p, q);
    }
  }

  /** With ids numbered by index, every record receives exactly the records that name it as parent. */
  lemma LinkedChildrenNumbered(B: seq<Item>, k: nat)
    requires IdsByIndex(B) && k < |B|
    ensures LinkedChildren(B, IndexOf(B, ItemKey), k) == ChildIds(B, B[k].id)
  {
    var M := IndexOf(B, ItemKey);
    IndexOfNumbered(B, k);
    forall r ensures r in M && M[r] == k <==> r == B[k].id {
      if r in M && M[r] == k {
        assert B[M[r]].id == r;
      }
    }
    LinkedChildrenOf(B, M, k, B[k].id);
  }

  /** Two lists that differ at most in the records' children. */
  ghost predicate SameButChildren(B: seq<Item>, C: seq<Item>)
  {
    |B| == |C| && forall k :: 0 <= k < |B| ==> C[k].(children := B[k].children) == B[k]
  }

  /** Linking changes nothing but children. */
  lemma LinkedSame(B: seq<Item>)
    ensures SameButChildren(B, Linked(B))
  {
  }

  /** What the linkage, the listings and the counters read does not depend on children. */
  lemma {:induction false} SameButChildrenReads(B: seq<Item>, C: seq<Item>, q: Option<ItemId>)
    requires SameButChildren(B, C)
    ensures Kids(ChildRecords(C, q)) == Kids(ChildRecords(B, q))
    ensures q.Some? ==> ChildIds(C, q.value) == ChildIds(B, q.value)
    ensures CountDirs(C) == CountDirs(B) && CountFiles(C) == CountFiles(B)
    ensures FileBytes(C) == FileBytes(B)
  {
    if B != [] {
      var n := |B| - 1;
      assert C[n].(children := B[n].children) == B[n];
      assert SameButChildren(B[..n], C[..n]) by {
        forall k | 0 <= k < n ensures C[..n][k].(children := B[..n][k].children) == B[..n][k] {
          assert C[k].(children := B[k].children) == B[k];
        }
      }
      SameButChildrenReads(B[..n], C[..n], q);
      if C[n].parentId == q {
        KidsSnoc(ChildRecords(C[..n], q), C[n]);
        KidsSnoc(ChildRecords(B[..n], q), B[n]);
      }
    }
  }
}
