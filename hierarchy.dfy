/**
 * `buildHierarchy` of the page script: copy every embedded record into a map
 * keyed by id with its children emptied (a later record with the same id
 * replaces an earlier one), then, in list order, push each record's id onto
 * the children of the record its parent id names, when that id is a key.
 */
module Hierarchy {
  import opened Records
  import opened Serializer

  /** The key an embedded record is stored under: its id. */
  function RecordKey(r: Record): ItemId
  {
    r.id
  }

  /** The ids pushed onto `q`'s children: those of the records naming `q` as parent, in list order. */
  function ParentedIds(data: seq<Record>, q: ItemId): (r: seq<ItemId>)
    ensures |r| <= |data|
  {
    if data == [] then []
    else
      var x := data[|data| - 1];
      ParentedIds(data[..|data| - 1], q) + (if x.parentId == Some(q) then [x.id] else [])
  }

  /** Each id in `ParentedIds` belongs to a record naming `q` as parent, and each such record's id is there. */
  lemma {:induction false} ParentedIdsMembership(data: seq<Record>, q: ItemId, c: ItemId)
    ensures c in ParentedIds(data, q) <==>
            exists k :: 0 <= k < |data| && data[k].id == c && data[k].parentId == Some(q)
  {
    if data != [] {
      var init := data[..|data| - 1];
      ParentedIdsMembership(init, q, c);
      if exists k :: 0 <= k < |init| && init[k].id == c && init[k].parentId == Some(q) {
        var k :| 0 <= k < |init| && init[k].id == c && init[k].parentId == Some(q);
        assert data[k] == init[k];
      }
    }
  }

  /** The map `buildHierarchy` leaves in `window.itemMap`. */
  function ItemMap(data: seq<Record>): (m: map<ItemId, Record>)
    ensures forall q :: q in m <==> q in IndexOf(data, RecordKey)
    ensures forall q :: q in m ==> m[q] == data[IndexOf(data, RecordKey)[q]].(children := ParentedIds(data, q))
  {
    var M := IndexOf(data, RecordKey);
    map q | q in M :: data[M[q]].(children := ParentedIds(data, q))
  }

  /**
   * Every id of the data is a key; a key's record is the last record with
   * that id, with the children the rebuild gives it.
   */
  lemma HierarchyEntries(data: seq<Record>)
    ensures forall k :: 0 <= k < |data| ==> data[k].id in ItemMap(data)
    ensures forall q :: q in ItemMap(data) ==>
              exists k :: 0 <= k < |data| && data[k].id == q
                          && (forall j :: k < j < |data| ==> data[j].id != q)
                          && ItemMap(data)[q] == data[k].(children := ParentedIds(data, q))
  {
    var M := IndexOf(data, RecordKey);
    forall q | q in ItemMap(data)
      ensures exists k :: 0 <= k < |data| && data[k].id == q
                          && (forall j :: k < j < |data| ==> data[j].id != q)
                          && ItemMap(data)[q] == data[k].(children := ParentedIds(data, q))
    {
      var k := M[q];
      forall j | k < j < |data| ensures data[j].id != q {
        IndexOfLast(data, RecordKey, q, j);
      }
    }
  }

  /** The map after the first loop has copied the first `i` records with their children emptied. */
  ghost predicate Copied(m: map<ItemId, Record>, data: seq<Record>, i: nat)
    requires i <= |data|
  {
    var M := IndexOf(data[..i], RecordKey);
    (forall q :: q in m <==> q in M)
    && forall q :: q in m ==> m[q] == data[M[q]].(children := [])
  }

  lemma CopiedStep(m: map<ItemId, Record>, data: seq<Record>, i: nat)
    requires i < |data| && Copied(m, data, i)
    ensures Copied(m[data[i].id := data[i].(children := [])], data, i + 1)
  {
    assert data[..i + 1][..i] == data[..i];
  }

  /** The map after the second loop has pushed the first `j` records onto their parents. */
  ghost predicate Pushed(m: map<ItemId, Record>, data: seq<Record>, j: nat)
    requires j <= |data|
  {
    var M := IndexOf(data, RecordKey);
    (forall q :: q in m <==> q in M)
    && forall q :: q in m ==> m[q] == data[M[q]].(children := ParentedIds(data[..j], q))
  }

  lemma PushedStart(m: map<ItemId, Record>, data: seq<Record>)
    requires Copied(m, data, |data|)
    ensures Pushed(m, data, 0)
  {
    assert data[..|data|] == data;
  }

  /** Taking one more record adds its id to its parent's pushed ids only. */
  lemma ParentedIdsNext(data: seq<Record>, j: nat, q: ItemId)
    requires j < |data|
    ensures ParentedIds(data[..j + 1], q)
            == ParentedIds(data[..j], q) + (if data[j].parentId == Some(q) then [data[j].id] else [])
  {
    assert data[..j + 1][..j] == data[..j];
  }

  /** Record `j` names a parent that is a key: its id goes to the end of that record's children. */
  lemma PushedStep(m: map<ItemId, Record>, data: seq<Record>, j: nat, p: ItemId)
    requires j < |data| && Pushed(m, data, j)
    requires data[j].parentId == Some(p) && p in m
    ensures Pushed(m[p := m[p].(children := m[p].children + [data[j].id])], data, j + 1)
  {
    var m' := m[p := m[p].(children := m[p].children + [data[j].id])];
    var M := IndexOf(data, RecordKey);
    forall q | q in m' ensures m'[q] == data[M[q]].(children := ParentedIds(data[..j + 1], q)) {
      ParentedIdsNext(data, j, q);
    }
  }

  /** Record `j` names no parent that is a key: nothing changes. */
  lemma PushedSkip(m: map<ItemId, Record>, data: seq<Record>, j: nat)
    requires j < |data| && Pushed(m, data, j)
    requires !(data[j].parentId.Some? && data[j].parentId.value in m)
    ensures Pushed(m, data, j + 1)
  {
    forall q | q in m ensures ParentedIds(data[..j + 1], q) == ParentedIds(data[..j], q) {
      ParentedIdsNext(data, j, q);
    }
  }

  lemma PushedDone(m: map<ItemId, Record>, data: seq<Record>)
    requires Pushed(m, data, |data|)
    ensures m == ItemMap(data)
  {
    assert data[..|data|] == data;
  }

  /** `buildHierarchy`'s first loop: every record copied with its children emptied. */
  method CopyRecords(data: seq<Record>) returns (m: map<ItemId, Record>)
    ensures Copied(m, data, |data|)
  {
    m := map[];
    var i := 0;
    while i < |data|
      invariant 0 <= i <= |data| && Copied(m, data, i)
    {
      CopiedStep(m, data, i);
      m := m[data[i].id := data[i].(children := [])];
      i := i + 1;
    }
  }

  /** One pass of the second loop: `x`'s id pushed onto its parent's children when the parent is a key. */
  function PushOne(m: map<ItemId, Record>, x: Record): (m': map<ItemId, Record>)
    ensures m'.Keys == m.Keys
  {
    if x.parentId.Some? && x.parentId.value in m then
      var p := x.parentId.value;
      m[p := m[p].(children := m[p].children + [x.id])]
    else m
  }

  lemma PushedNext(m: map<ItemId, Record>, data: seq<Record>, j: nat)
    requires j < |data| && Pushed(m, data, j)
    ensures Pushed(PushOne(m, data[j]), data, j + 1)
  {
    var x := data[j];
    if x.parentId.Some? && x.parentId.value in m {
      PushedStep(m, data, j, x.parentId.value);
    } else {
      PushedSkip(m, data, j);
    }
  }

  /** `buildHierarchy`'s second loop: each record's id pushed onto its parent's children. */
  method PushChildren(data: seq<Record>, m0: map<ItemId, Record>) returns (m: map<ItemId, Record>)
    requires Pushed(m0, data, 0)
    ensures Pushed(m, data, |data|)
  {
    m := m0;
    var j := 0;
    while j < |data|
      invariant 0 <= j <= |data| && Pushed(m, data, j)
    {
      PushedNext(m, data, j);
      m := PushOne(m, data[j]);
      j := j + 1;
    }
  }

  /** `buildHierarchy`: the map it builds is `ItemMap(data)`. */
  method BuildHierarchy(data: seq<Record>) returns (m: map<ItemId, Record>)
    ensures m == ItemMap(data)
  {
    var copied := CopyRecords(data);
    PushedStart(copied, data);
    m := PushChildren(data, copied);
    PushedDone(m, data);
  }
}
