/** The store's objects, which keep secondary indexes beside the records they change in place. */
module StoreObjects {
  import opened Tables
  import opened GoText
  import opened GoNumbers
  import opened RecordStore

  /** The ids of the records under each key of one field. */
  type FieldIndex = map<string, set<Int64>>

  // ---------------------------------------------------------------- one index

  /** A bucket holds an id exactly when that record has a non-nil value with that key, and no bucket is empty. */
  ghost predicate Agrees(items: map<Int64, Record>, field: string, index: FieldIndex) {
    && (forall key, id :: key in index && id in index[key] ==> id in items && Keyed(items[id], field, key))
    && (forall id :: id in items && Field(items[id], field) != Nil ==>
          var key := IndexKey(Field(items[id], field)); key in index && id in index[key])
    && (forall key :: key in index ==> index[key] != {})
  }

  function Added(index: FieldIndex, field: string, item: Record, id: Int64): FieldIndex {
    var value := Field(item, field);
    if value == Nil then index
    else
      var key := IndexKey(value);
      index[key := (if key in index then index[key] else {}) + {id}]
  }

  function Removed(index: FieldIndex, field: string, item: Record, id: Int64): FieldIndex {
    var value := Field(item, field);
    if value == Nil || IndexKey(value) !in index then index
    else
      var key := IndexKey(value);
      if index[key] - {id} == {} then index - {key} else index[key := index[key] - {id}]
  }

  lemma AddedAgrees(items: map<Int64, Record>, field: string, index: FieldIndex, item: Record, id: Int64)
    requires Agrees(items, field, index) && id !in items
    ensures Agrees(items[id := item], field, Added(index, field, item, id))
  {
    hide IndexKey;
  }

  lemma RemovedAgrees(items: map<Int64, Record>, field: string, index: FieldIndex, id: Int64)
    requires Agrees(items, field, index) && id in items
    ensures Agrees(items - {id}, field, Removed(index, field, items[id], id))
  {
    hide IndexKey;
  }

  /** The bucket of a key is what a look-up needs. */
  lemma BucketIsKeyed(items: map<Int64, Record>, field: string, index: FieldIndex, key: string)
    requires Agrees(items, field, index)
    ensures (if key in index then index[key] else {}) == KeyedIds(items, field, key)
  {
    hide IndexKey;
  }

  /** There is one index that agrees with the records. */
  lemma AgreeingIndexUnique(items: map<Int64, Record>, field: string, a: FieldIndex, b: FieldIndex)
    requires Agrees(items, field, a) && Agrees(items, field, b)
    ensures a == b
  {
    forall key
      ensures key in a <==> key in b
      ensures key in a && key in b ==> a[key] == b[key]
    {
      BucketIsKeyed(items, field, a, key);
      BucketIsKeyed(items, field, b, key);
    }
  }

  function AddedAll(indexes: map<string, FieldIndex>, item: Record, id: Int64): map<string, FieldIndex> {
    map field | field in indexes :: Added(indexes[field], field, item, id)
  }

  function RemovedAll(indexes: map<string, FieldIndex>, item: Record, id: Int64): map<string, FieldIndex> {
    map field | field in indexes :: Removed(indexes[field], field, item, id)
  }

  ghost predicate IndexesAgree(items: map<Int64, Record>, indexes: map<string, FieldIndex>) {
    forall field :: field in indexes ==> Agrees(items, field, indexes[field])
  }

  lemma AddedIndexesAgree(items: map<Int64, Record>, indexes: map<string, FieldIndex>, item: Record, id: Int64)
    requires IndexesAgree(items, indexes) && id !in items
    ensures IndexesAgree(items[id := item], AddedAll(indexes, item, id))
  {
    hide Agrees, Added;
    forall field | field in indexes
      ensures Agrees(items[id := item], field, Added(indexes[field], field, item, id))
    {
      AddedAgrees(items, field, indexes[field], item, id);
    }
  }

  lemma RemovedIndexesAgree(items: map<Int64, Record>, indexes: map<string, FieldIndex>, id: Int64)
    requires IndexesAgree(items, indexes) && id in items
    ensures IndexesAgree(items - {id}, RemovedAll(indexes, items[id], id))
  {
    hide Agrees, Removed;
    forall field | field in indexes
      ensures Agrees(items - {id}, field, Removed(indexes[field], field, items[id], id))
    {
      RemovedAgrees(items, field, indexes[field], id);
    }
  }

  lemma NothingAgrees(indexes: map<string, FieldIndex>)
    requires forall field :: field in indexes ==> indexes[field] == map[]
    ensures IndexesAgree(map[], indexes)
  {
  }

  /** The indexes after a record replaced what was stored under its id. */
  function Reindexed(indexes: map<string, FieldIndex>, items: map<Int64, Record>, item: Record,
                     id: Int64): map<string, FieldIndex> {
    AddedAll(if id in items then RemovedAll(indexes, items[id], id) else indexes, item, id)
  }

  lemma ReindexedAgree(items: map<Int64, Record>, indexes: map<string, FieldIndex>, item: Record, id: Int64)
    requires IndexesAgree(items, indexes)
    ensures IndexesAgree(items[id := item], Reindexed(indexes, items, item, id))
  {
    hide IndexesAgree, AddedAll, RemovedAll;
    if id in items {
      RemovedIndexesAgree(items, indexes, id);
      AddedIndexesAgree(items - {id}, RemovedAll(indexes, items[id], id), item, id);
      assert (items - {id})[id := item] == items[id := item];
    } else {
      AddedIndexesAgree(items, indexes, item, id);
    }
  }

  // ---------------------------------------------------------------- helpers of the methods

  method SortedIDs(ids: set<Int64>) returns (r: seq<Int64>)
    ensures r == SortIds(ids)
  {
    r := [];
    var rest := ids;
    while rest != {}
      invariant r + SortIds(rest) == SortIds(ids)
      decreases |rest|
    {
      LeastIdExists(rest);
      var k :| k in rest && forall o :: o in rest ==> k <= o;
      assert k == LeastId(rest);
      IdMovesOver(r, k, SortIds(rest - {k}));
      r := r + [k];
      rest := rest - {k};
    }
  }

  lemma IdMovesOver(r: seq<Int64>, k: Int64, tail: seq<Int64>)
    ensures r + ([k] + tail) == (r + [k]) + tail
  {
  }

  method NormalizedFields(fields: seq<string>) returns (r: seq<string>)
    ensures r == NormalizeFields(fields)
  {
    var seen: set<string> := {};
    for i := 0 to |fields|
      invariant seen == set f | f in fields[..i] && f != ""
    {
      assert fields[..i + 1] == fields[..i] + [fields[i]];
      if fields[i] != "" {
        seen := seen + {fields[i]};
      }
    }
    assert fields[..|fields|] == fields;
    r := SortedKeys(seen);
  }

  // ---------------------------------------------------------------- a collection

  lemma StampedId(record: Record, id: Int64, now: Value)
    ensures var r := Stamped(record, id, now); "id" in r && r["id"] == Int(id) && IdOf(r) == Some(id)
  {
  }

  class Collection {
    var items: map<Int64, Record>
    var indexes: map<string, FieldIndex>
    var indexFields: seq<string>
    var autoID: Int64

    ghost predicate Valid()
      reads this
    {
      && WellFormed(State())
      && (forall field :: field in indexes <==> field in indexFields)
      && IndexesAgree(items, indexes)
    }

    ghost function State(): Coll
      reads this
    {
      Coll(items, autoID, indexFields)
    }

    constructor (fields: seq<string>)
      ensures Valid() && State() == New(fields)
    {
      hide NormalizeFields, IndexesAgree;
      items, autoID := map[], 1;
      new;
      indexFields := NormalizedFields(fields);
      indexes := map field | field in indexFields :: map[];
      NormalIsNormal(fields);
      NothingAgrees(indexes);
    }

    method AddToIndexes(item: Record)
      requires "id" in item && item["id"].Int?
      modifies this`indexes
      ensures indexes == AddedAll(old(indexes), item, item["id"].n)
    {
      var id := item["id"].n;
      var todo := indexes.Keys;
      while todo != {}
        invariant todo <= indexes.Keys == old(indexes).Keys
        invariant forall field :: field in indexes ==>
          indexes[field] == if field in todo then old(indexes)[field] else Added(old(indexes)[field], field, item, id)
        decreases |todo|
      {
        var field :| field in todo;
        indexes := indexes[field := Added(indexes[field], field, item, id)];
        todo := todo - {field};
      }
    }

    method RemoveFromIndexes(item: Record)
      requires "id" in item && item["id"].Int?
      modifies this`indexes
      ensures indexes == RemovedAll(old(indexes), item, item["id"].n)
    {
      var id := item["id"].n;
      var todo := indexes.Keys;
      while todo != {}
        invariant todo <= indexes.Keys == old(indexes).Keys
        invariant forall field :: field in indexes ==>
          indexes[field] == if field in todo then old(indexes)[field] else Removed(old(indexes)[field], field, item, id)
        decreases |todo|
      {
        var field :| field in todo;
        indexes := indexes[field := Removed(indexes[field], field, item, id)];
        todo := todo - {field};
      }
    }

    method Stamp(record: Record, id: Int64, now: Value) returns (item: Record)
      ensures item == Stamped(record, id, now)
    {
      item := record["id" := Int(id)];
      if "created_at" !in item {
        item := item["created_at" := now];
      }
      item := item["updated_at" := now];
    }

    method Insert(record: Record, now: Value) returns (item: Record)
      requires Valid()
      modifies this
      ensures Valid() && State() == Inserted(old(State()), record, now)
      ensures item == Stamped(record, ChosenId(old(State()), record), now)
    {
      hide IndexesAgree, AddedAll, RemovedAll, NormalizeFields, WellFormed, IdOf, Stamped;
      StampedId(record, ChosenId(State(), record), now);
      StepKeepsWellFormed(State(), RecordStore.Insert(record, now));
      WellFormedId(State());
      ReindexedAgree(items, indexes, Stamped(record, ChosenId(State(), record), now), ChosenId(State(), record));
      var given := IdOf(record);
      var id := if given.None? || given.value <= 0 then autoID else given.value;
      if id >= autoID {
        autoID := Next(id);
      }
      if id in items {
        RemoveFromIndexes(items[id]);
      }
      item := Stamp(record, id, now);
      items := items[id := item];
      AddToIndexes(item);
      IndexesKeepFields(old(indexes), old(items), item, id);
    }

    method Get(id: Int64) returns (r: Option<Record>)
      ensures r == if id in items then Some(items[id]) else None
    {
      r := if id in items then Some(items[id]) else None;
    }

    method Update(id: Int64, patch: Record, now: Value) returns (r: Option<Record>)
      requires Valid()
      modifies this
      ensures Valid() && State() == Updated(old(State()), id, patch, now)
      ensures r == if id in items then Some(items[id]) else None
      ensures id !in items ==> indexes == old(indexes)
    {
      hide IndexesAgree, AddedAll, RemovedAll, NormalizeFields;
      if id !in items {
        return None;
      }
      ReindexedAgree(items, indexes, Patched(items[id], patch, now), id);
      RemoveFromIndexes(items[id]);
      var updated := (items[id] + (patch - {"id"}))["updated_at" := now];
      items := items[id := updated];
      AddToIndexes(updated);
      IndexesKeepFields(old(indexes), old(items), updated, id);
      return Some(updated);
    }

    /** The patch is computed from the stored record, or refused. */
    method UpdateFunc(id: Int64, fn: Record -> Option<Record>, now: Value) returns (r: Option<Record>)
      requires Valid()
      modifies this
      ensures Valid()
      ensures State() == if id in old(items) && fn(old(items)[id]).Some?
                         then Updated(old(State()), id, fn(old(items)[id]).value, now) else old(State())
    {
      if id !in items {
        return None;
      }
      var patch := fn(items[id]);
      if patch.None? {
        return None;
      }
      r := Update(id, patch.value, now);
    }

    method Delete(id: Int64) returns (ok: bool)
      requires Valid()
      modifies this
      ensures Valid() && State() == Deleted(old(State()), id)
      ensures ok == (id in old(items))
    {
      hide IndexesAgree, AddedAll, NormalizeFields;
      if id !in items {
        assert items - {id} == items;
        return false;
      }
      RemovedIndexesAgree(items, indexes, id);
      RemoveFromIndexes(items[id]);
      items := items - {id};
      return true;
    }

    method Clear()
      requires Valid()
      modifies this
      ensures Valid() && State() == Cleared(old(State()))
    {
      hide NormalizeFields, IndexesAgree;
      items := map[];
      indexes := map field | field in indexes :: map[];
      autoID := 1;
      NothingAgrees(indexes);
    }

    method AllRecords() returns (r: seq<Record>)
      requires Valid()
      ensures r == All(State())
    {
      var ids := SortedIDs(items.Keys);
      r := Rows(items, ids);
    }

    method FindBy(field: string, value: Value) returns (r: seq<Record>)
      requires Valid()
      ensures r == Found(State(), field, value)
    {
      hide SortIds, NormalizeFields, Agrees, Select, KeyedIds, IndexKey, WellFormed, All;
      var key := IndexKey(value);
      if field in indexes {
        BucketIsKeyed(items, field, indexes[field], key);
        KeyedIdsIn(items, field, key);
        var ids := SortedIDs(if key in indexes[field] then indexes[field][key] else {});
        return Rows(items, ids);
      }
      var all := AllRecords();
      r := MatchingRecords(all, field, key);
    }

    method TakeSnapshot() returns (s: CollSnapshot)
      requires Valid()
      ensures s == Snapshot(State())
    {
      var all := AllRecords();
      s := CollSnapshot(all, autoID, indexFields);
    }

    /** A snapshot with a missing or repeated id is refused before anything changes. */
    method RestoreFrom(s: CollSnapshot) returns (ok: bool)
      requires Valid()
      modifies this
      ensures ok <==> Acceptable(s.items)
      ensures Valid() && State() == Apply(old(State()), Restore(s))
      ensures !ok ==> indexes == old(indexes)
    {
      hide IndexesAgree, AddedAll, NormalizeFields, WellFormed, Acceptable, IdOf, Recorded, AutoAfter;
      var fields := NormalizedFields(s.indexFields);
      ok := IdsAcceptable(s.items);
      if !ok {
        return;
      }
      StepKeepsWellFormed(State(), RecordStore.Restore(s));
      if indexFields != fields {
        indexFields := fields;
        indexes := map field | field in fields :: map[];
      }
      items := map[];
      indexes := map field | field in indexes :: map[];
      NothingAgrees(indexes);
      autoID := if s.autoID < 1 then 1 else s.autoID;
      RestoreItems(s.items);
    }

    /** Adds the items of a snapshot to a collection that was emptied. */
    method RestoreItems(records: seq<Record>)
      requires Acceptable(records) && items == map[] && IndexesAgree(items, indexes)
      modifies this
      ensures items == Recorded(records) && autoID == AutoAfter(records, old(autoID))
      ensures indexFields == old(indexFields) && indexes.Keys == old(indexes).Keys && IndexesAgree(items, indexes)
    {
      hide IndexesAgree, AddedAll, IdOf, NormalizeFields, WellFormed;
      for i := 0 to |records|
        invariant items == Recorded(records[..i]) && autoID == AutoAfter(records[..i], old(autoID))
        invariant indexFields == old(indexFields) && indexes.Keys == old(indexes).Keys && IndexesAgree(items, indexes)
      {
        var id := IdOf(records[i]).value;
        var record := records[i]["id" := Int(id)];
        NewId(records, i);
        AddedIndexesAgree(items, indexes, record, id);
        AddedAllFields(indexes, record, id);
        items := items[id := record];
        AddToIndexes(record);
        if id >= autoID {
          autoID := Next(id);
        }
      }
      assert records[..|records|] == records;
    }
  }

  method IdsAcceptable(items: seq<Record>) returns (ok: bool)
    ensures ok <==> Acceptable(items)
  {
    hide IdOf;
    var seen: set<Int64> := {};
    for i := 0 to |items|
      invariant forall j :: 0 <= j < i ==> IdOf(items[j]).Some? && IdOf(items[j]).value > 0
      invariant forall j, k :: 0 <= j < k < i ==> IdOf(items[j]) != IdOf(items[k])
      invariant seen == set j | 0 <= j < i :: IdOf(items[j]).value
    {
      var id := IdOf(items[i]);
      if id.None? || id.value <= 0 {
        return false;
      }
      if id.value in seen {
        var j :| 0 <= j < i && IdOf(items[j]).value == id.value;
        assert IdOf(items[j]) == IdOf(items[i]);
        return false;
      }
      seen := seen + {id.value};
    }
    return true;
  }

  method MatchingRecords(all: seq<Record>, field: string, key: string) returns (r: seq<Record>)
    ensures r == Select(all, field, key)
  {
    hide Select, IndexKey;
    r := [];
    assert all[0..] == all && [] + Select(all, field, key) == Select(all, field, key);
    for i := 0 to |all|
      invariant r + Select(all[i..], field, key) == Select(all, field, key)
    {
      SelectFrom(r, all, i, field, key);
      if IndexKey(Field(all[i], field)) == key {
        r := r + [all[i]];
      }
    }
    assert all[|all|..] == [];
    SelectNone(field, key);
  }

  lemma KeyedIdsIn(items: map<Int64, Record>, field: string, key: string)
    ensures KeyedIds(items, field, key) <= items.Keys
  {
  }

  lemma SelectNone(field: string, key: string)
    ensures Select([], field, key) == []
  {
  }

  lemma WellFormedId(c: Coll)
    requires WellFormed(c)
    ensures forall id :: id in c.items ==> "id" in c.items[id] && c.items[id]["id"] == Int(id)
  {
  }

  lemma NewId(items: seq<Record>, i: nat)
    requires Acceptable(items) && i < |items|
    ensures forall j :: 0 <= j < i ==> IdOf(items[..i][j]).Some?
    ensures IdOf(items[i]).value !in Recorded(items[..i])
    ensures items[..i + 1][..i] == items[..i]
  {
    hide Recorded;
    var front := items[..i];
    assert forall j :: 0 <= j < i ==> front[j] == items[j];
    RecordedLaw(front);
  }

  lemma AddedAllFields(indexes: map<string, FieldIndex>, item: Record, id: Int64)
    ensures AddedAll(indexes, item, id).Keys == indexes.Keys
  {
  }

  lemma IndexesKeepFields(indexes: map<string, FieldIndex>, items: map<Int64, Record>, item: Record, id: Int64)
    ensures Reindexed(indexes, items, item, id).Keys == indexes.Keys
  {
  }

  lemma SelectFrom(r: seq<Record>, all: seq<Record>, i: nat, field: string, key: string)
    requires i < |all|
    ensures r + Select(all[i..], field, key)
         == (if Matches(all[i], field, key) then r + [all[i]] else r) + Select(all[i + 1..], field, key)
  {
    hide Matches;
    assert all[i..][0] == all[i] && all[i..][1..] == all[i + 1..];
  }
}
