/** Collections of records by value: what every operation of the store does to them. */
module RecordStore {
  import opened Tables
  import opened GoText
  import opened GoNumbers

  /** A stored value. A float knows the integer it equals, if any; text of nested values is as they print. */
  datatype Value = Nil | Int(n: Int64) | Float(whole: Option<Int64>, text: string) | Text(s: string) | Bool(b: bool)
                 | Number(digits: string) | Nested(text: string)
  type Record = map<string, Value>

  datatype Coll = Coll(items: map<Int64, Record>, autoID: Int64, fields: seq<string>)
  datatype CollSnapshot = CollSnapshot(items: seq<Record>, autoID: Int64, indexFields: seq<string>)

  /** `fmt.Sprint`, by which records are grouped in an index. */
  function IndexKey(v: Value): string {
    match v
    case Nil => NIL_KEY
    case Int(n) => Itoa(n)
    case Float(_, text) => text
    case Text(s) => s
    case Bool(b) => if b then "true" else "false"
    case Number(digits) => digits
    case Nested(text) => text
  }

  const NIL_KEY := "<nil>"

  function NumericID(v: Value): Option<Int64> {
    match v
    case Int(n) => Some(n)
    case Float(whole, _) => whole
    case Number(digits) => (match ParseInt(digits) case Some(n) => Some(n as Int64) case None => None)
    case _ => None
  }

  function Field(r: Record, field: string): Value {
    if field in r then r[field] else Nil
  }

  function IdOf(r: Record): Option<Int64> {
    NumericID(Field(r, "id"))
  }

  /** The id behind the largest one wraps around. */
  function Next(id: Int64): Int64 {
    if id == INT64_MAX then INT64_MIN else id + 1
  }

  // ---------------------------------------------------------------- the operations

  function ChosenId(c: Coll, record: Record): Int64 {
    match IdOf(record)
    case Some(n) => if n > 0 then n else c.autoID
    case None => c.autoID
  }

  function Stamped(record: Record, id: Int64, now: Value): Record {
    var r := record["id" := Int(id)];
    (if "created_at" in r then r else r["created_at" := now])["updated_at" := now]
  }

  function Inserted(c: Coll, record: Record, now: Value): Coll {
    var id := ChosenId(c, record);
    Coll(c.items[id := Stamped(record, id, now)], if id >= c.autoID then Next(id) else c.autoID, c.fields)
  }

  function Patched(existing: Record, patch: Record, now: Value): Record {
    (existing + (patch - {"id"}))["updated_at" := now]
  }

  function Updated(c: Coll, id: Int64, patch: Record, now: Value): Coll {
    if id in c.items then c.(items := c.items[id := Patched(c.items[id], patch, now)]) else c
  }

  function Deleted(c: Coll, id: Int64): Coll {
    c.(items := c.items - {id})
  }

  function Cleared(c: Coll): Coll {
    Coll(map[], 1, c.fields)
  }

  ghost function NormalizeFields(fields: seq<string>): seq<string> {
    SortKeys(set f | f in fields && f != "")
  }

  /** Every item has a positive id of its own. */
  ghost predicate Acceptable(items: seq<Record>) {
    && (forall i :: 0 <= i < |items| ==> IdOf(items[i]).Some? && IdOf(items[i]).value > 0)
    && (forall i, j :: 0 <= i < j < |items| ==> IdOf(items[i]) != IdOf(items[j]))
  }

  function Recorded(items: seq<Record>): map<Int64, Record>
    requires forall i :: 0 <= i < |items| ==> IdOf(items[i]).Some?
  {
    if items == [] then map[]
    else
      var last := items[|items| - 1];
      Recorded(items[..|items| - 1])[IdOf(last).value := last["id" := Int(IdOf(last).value)]]
  }

  function AutoAfter(items: seq<Record>, auto: Int64): Int64
    requires forall i :: 0 <= i < |items| ==> IdOf(items[i]).Some?
  {
    if items == [] then auto
    else
      var before, id := AutoAfter(items[..|items| - 1], auto), IdOf(items[|items| - 1]).value;
      if id >= before then Next(id) else before
  }

  ghost function Restored(s: CollSnapshot): Coll
    requires Acceptable(s.items)
  {
    Coll(Recorded(s.items), AutoAfter(s.items, if s.autoID < 1 then 1 else s.autoID), NormalizeFields(s.indexFields))
  }

  // ---------------------------------------------------------------- records in id order

  ghost predicate Ascending(s: seq<Int64>) {
    forall i, j :: 0 <= i < j < |s| ==> s[i] < s[j]
  }

  ghost predicate IsLeastId(k: Int64, ids: set<Int64>) {
    k in ids && forall o :: o in ids ==> k <= o
  }

  lemma {:induction false} LeastIdExists(ids: set<Int64>)
    requires ids != {}
    ensures exists k :: IsLeastId(k, ids)
    decreases |ids|
  {
    var k :| k in ids;
    var rest := ids - {k};
    if rest == {} {
      assert forall o :: o in ids ==> o == k || o in rest;
      assert IsLeastId(k, ids);
    } else {
      LeastIdExists(rest);
      var m :| IsLeastId(m, rest);
      assert forall o :: o in ids ==> o == k || o in rest;
      assert IsLeastId(if k < m then k else m, ids);
    }
  }

  ghost function LeastId(ids: set<Int64>): (k: Int64)
    requires ids != {}
    ensures IsLeastId(k, ids)
  {
    LeastIdExists(ids);
    var k :| IsLeastId(k, ids);
    k
  }

  ghost function SortIds(ids: set<Int64>): (r: seq<Int64>)
    ensures forall k :: k in r <==> k in ids
    ensures Ascending(r)
    decreases |ids|
  {
    if ids == {} then []
    else [LeastId(ids)] + SortIds(ids - {LeastId(ids)})
  }

  /** There is only one ascending order. */
  lemma {:induction false} AscendingUnique(a: seq<Int64>, b: seq<Int64>)
    requires Ascending(a) && Ascending(b) && forall k :: k in a <==> k in b
    ensures a == b
  {
    assert a != [] ==> a[0] in b;
    assert b != [] ==> b[0] in a;
    if a != [] {
      var i :| 0 <= i < |b| && b[i] == a[0];
      var j :| 0 <= j < |a| && a[j] == b[0];
      assert a[0] == b[0];
      forall k
        ensures k in a[1..] <==> k in b[1..]
      {
        assert k in a <==> k == a[0] || k in a[1..] by { assert a == [a[0]] + a[1..]; }
        assert k in b <==> k == b[0] || k in b[1..] by { assert b == [b[0]] + b[1..]; }
        assert a[0] !in a[1..] && b[0] !in b[1..];
      }
      AscendingUnique(a[1..], b[1..]);
      assert a == [a[0]] + a[1..] && b == [b[0]] + b[1..];
    }
  }

  function Rows(items: map<Int64, Record>, ids: seq<Int64>): (r: seq<Record>)
    requires forall k :: k in ids ==> k in items
    ensures |r| == |ids| && forall i :: 0 <= i < |r| ==> r[i] == items[ids[i]]
  {
    seq(|ids|, i requires 0 <= i < |ids| => items[ids[i]])
  }

  ghost function All(c: Coll): seq<Record> {
    Rows(c.items, SortIds(c.items.Keys))
  }

  ghost function Snapshot(c: Coll): CollSnapshot {
    CollSnapshot(All(c), c.autoID, c.fields)
  }

  // ---------------------------------------------------------------- what holds of every collection

  /** Every record carries the id it is stored under, and the fields are in normal form. */
  ghost predicate WellFormed(c: Coll) {
    && (forall id :: id in c.items ==> "id" in c.items[id] && c.items[id]["id"] == Int(id))
    && c.fields == NormalizeFields(c.fields)
  }

  /** The auto id is above every stored id, and all are positive. */
  ghost predicate Numbered(c: Coll) {
    c.autoID > 0 && forall id :: id in c.items ==> 0 < id < c.autoID
  }

  datatype Op = Insert(record: Record, now: Value) | Update(id: Int64, patch: Record, now: Value)
              | Delete(id: Int64) | Clear | Restore(snapshot: CollSnapshot)

  ghost function Apply(c: Coll, op: Op): Coll {
    match op
    case Insert(record, now) => Inserted(c, record, now)
    case Update(id, patch, now) => Updated(c, id, patch, now)
    case Delete(id) => Deleted(c, id)
    case Clear => Cleared(c)
    case Restore(s) => if Acceptable(s.items) then Restored(s) else c
  }

  ghost function Run(c: Coll, ops: seq<Op>): Coll
    decreases |ops|
  {
    if ops == [] then c else Run(Apply(c, ops[0]), ops[1..])
  }

  ghost function New(fields: seq<string>): Coll {
    Coll(map[], 1, NormalizeFields(fields))
  }

  /** The step stores something under the largest id there is. */
  ghost predicate UsesLastId(c: Coll, op: Op) {
    match op
    case Insert(record, _) => ChosenId(c, record) == INT64_MAX
    case Restore(s) => Acceptable(s.items) && exists i :: 0 <= i < |s.items| && IdOf(s.items[i]).value == INT64_MAX
    case _ => false
  }

  lemma NormalIsNormal(fields: seq<string>)
    ensures NormalizeFields(NormalizeFields(fields)) == NormalizeFields(fields)
  {
    var keys := set f | f in fields && f != "";
    var normal := NormalizeFields(fields);
    assert keys == set f | f in normal && f != "";
  }

  ghost predicate RecordedAt(items: seq<Record>, i: nat)
    requires i < |items| && forall j :: 0 <= j < |items| ==> IdOf(items[j]).Some?
  {
    var id := IdOf(items[i]).value;
    id in Recorded(items) && Recorded(items)[id] == items[i]["id" := Int(id)]
  }

  lemma {:induction false} RecordedLaw(items: seq<Record>)
    requires Acceptable(items)
    ensures forall id :: id in Recorded(items) <==> exists i :: 0 <= i < |items| && IdOf(items[i]).value == id
    ensures forall i :: 0 <= i < |items| ==> RecordedAt(items, i)
  {
    if items != [] {
      var front, last := items[..|items| - 1], items[|items| - 1];
      assert forall i :: 0 <= i < |front| ==> front[i] == items[i];
      RecordedLaw(front);
      forall i | 0 <= i < |items|
        ensures RecordedAt(items, i)
      {
        assert i < |front| ==> RecordedAt(front, i);
      }
      forall id
        ensures id in Recorded(items) <==> exists i :: 0 <= i < |items| && IdOf(items[i]).value == id
      {
        if id in Recorded(front) {
          var i :| 0 <= i < |front| && IdOf(front[i]).value == id;
          assert IdOf(items[i]).value == id;
        }
        if id == IdOf(last).value {
          assert IdOf(items[|items| - 1]).value == id;
        }
        if i :| 0 <= i < |items| && IdOf(items[i]).value == id {
          if i < |front| {
            assert IdOf(front[i]).value == id;
          }
        }
      }
    }
  }

  lemma {:induction false} AutoAfterLaw(items: seq<Record>, auto: Int64)
    requires Acceptable(items) && auto > 0
    ensures var last := AutoAfter(items, auto);
            (last > 0 && forall i :: 0 <= i < |items| ==> IdOf(items[i]).value < last)
            <==> forall i :: 0 <= i < |items| ==> IdOf(items[i]).value != INT64_MAX
    ensures (forall i :: 0 <= i < |items| ==> IdOf(items[i]).value < auto) ==> AutoAfter(items, auto) == auto
  {
    if items != [] {
      var front, last := items[..|items| - 1], items[|items| - 1];
      assert forall i :: 0 <= i < |front| ==> front[i] == items[i];
      assert Acceptable(front);
      AutoAfterLaw(front, auto);
      assert last == items[|items| - 1];
    }
  }

  /** The restored map holds exactly the ids of the items, each with a record that carries it. */
  lemma RecordedIds(items: seq<Record>, id: Int64)
    requires Acceptable(items)
    ensures id in Recorded(items) ==> exists i ::
      0 <= i < |items| && IdOf(items[i]).value == id && Recorded(items)[id] == items[i]["id" := Int(id)]
  {
    hide Recorded;
    RecordedLaw(items);
    if id in Recorded(items) {
      var i :| 0 <= i < |items| && IdOf(items[i]).value == id;
      assert RecordedAt(items, i);
    }
  }

  /** Records carry their ids after every run of operations. */
  lemma StepKeepsWellFormed(c: Coll, op: Op)
    requires WellFormed(c)
    ensures WellFormed(Apply(c, op))
  {
    hide Acceptable, Restored, NormalizeFields, NumericID;
    if op.Restore? && Acceptable(op.snapshot.items) {
      RestoredWellFormed(op.snapshot);
    }
  }

  lemma RestoredWellFormed(s: CollSnapshot)
    requires Acceptable(s.items)
    ensures WellFormed(Restored(s))
  {
    hide Acceptable, Recorded, AutoAfter, NormalizeFields;
    var after := Restored(s);
    forall id | id in after.items
      ensures "id" in after.items[id] && after.items[id]["id"] == Int(id)
    {
      RecordedIds(s.items, id);
    }
    NormalIsNormal(s.indexFields);
  }

  lemma RestoredNumbered(s: CollSnapshot)
    requires Acceptable(s.items)
    ensures Numbered(Restored(s)) <==> forall i :: 0 <= i < |s.items| ==> IdOf(s.items[i]).value != INT64_MAX
  {
    hide Recorded, AutoAfter, NormalizeFields;
    var after := Restored(s);
    RecordedLaw(s.items);
    AutoAfterLaw(s.items, if s.autoID < 1 then 1 else s.autoID);
    if forall i :: 0 <= i < |s.items| ==> IdOf(s.items[i]).value != INT64_MAX {
      forall id | id in after.items
        ensures 0 < id < after.autoID
      {
        var i :| 0 <= i < |s.items| && IdOf(s.items[i]).value == id;
      }
    } else if Numbered(after) {
      forall i | 0 <= i < |s.items|
        ensures IdOf(s.items[i]).value < after.autoID
      {
        assert RecordedAt(s.items, i);
      }
    }
  }

  /** A step keeps the auto id above every stored id exactly when it does not use the largest id. */
  lemma StepKeepsNumbered(c: Coll, op: Op)
    requires Numbered(c)
    ensures Numbered(Apply(c, op)) <==> !UsesLastId(c, op)
  {
    match op
    case Insert(record, now) =>
      var id := ChosenId(c, record);
      assert id in Inserted(c, record, now).items;
    case Restore(s) =>
      hide Restored, Numbered, Acceptable;
      if Acceptable(s.items) {
        RestoredNumbered(s);
      }
    case _ =>
  }

  /** None of the operations stores something under the largest id. */
  ghost predicate AvoidsLastId(c: Coll, ops: seq<Op>)
    decreases |ops|
  {
    ops == [] || (!UsesLastId(c, ops[0]) && AvoidsLastId(Apply(c, ops[0]), ops[1..]))
  }

  lemma {:induction false} RunKeeps(c: Coll, ops: seq<Op>)
    requires WellFormed(c)
    ensures WellFormed(Run(c, ops))
    ensures Numbered(c) && AvoidsLastId(c, ops) ==> Numbered(Run(c, ops))
    decreases |ops|
  {
    if ops != [] {
      StepKeepsWellFormed(c, ops[0]);
      if Numbered(c) {
        StepKeepsNumbered(c, ops[0]);
      }
      RunKeeps(Apply(c, ops[0]), ops[1..]);
    }
  }

  /** Every collection that operations build from a new one. */
  lemma ReachableIsSound(fields: seq<string>, ops: seq<Op>)
    ensures WellFormed(Run(New(fields), ops))
    ensures AvoidsLastId(New(fields), ops) ==> Numbered(Run(New(fields), ops))
  {
    NormalIsNormal(fields);
    RunKeeps(New(fields), ops);
  }

  /** Inserting without a positive id overwrites nothing. */
  lemma FreshInsertOverwritesNothing(c: Coll, record: Record, now: Value)
    requires Numbered(c) && (IdOf(record).None? || IdOf(record).value <= 0)
    ensures var after := Inserted(c, record, now);
            ChosenId(c, record) !in c.items && after.items.Keys == c.items.Keys + {c.autoID}
            && forall id :: id in c.items ==> after.items[id] == c.items[id]
  {
  }

  /** An insert without a positive id replaces a record, instead of adding one, exactly if there is one under the auto
      id. */
  lemma InsertReplacesIff(c: Coll, record: Record, now: Value)
    requires IdOf(record).None? || IdOf(record).value <= 0
    ensures var after := Inserted(c, record, now);
            && (|after.items| == |c.items| <==> c.autoID in c.items)
            && |after.items| <= |c.items| + 1
            && c.autoID in after.items && after.items[c.autoID] == Stamped(record, c.autoID, now)
            && forall id :: id in c.items && id != c.autoID ==> id in after.items && after.items[id] == c.items[id]
  {
    hide Stamped, IdOf;
    var after := Inserted(c, record, now);
    assert after.items.Keys == c.items.Keys + {c.autoID};
    assert |after.items| == |after.items.Keys| && |c.items| == |c.items.Keys|;
  }

  /** Once the largest id was used, an insert without an id can overwrite a record. */
  lemma LastIdOverwrites(now: Value)
    ensures var ops := [Insert(map["id" := Int(7)], now), Insert(map["id" := Int(INT64_MAX)], now),
                        Insert(map["id" := Int(6)], now)];
            var c := Run(New([]), ops);
            ChosenId(c, map[]) == 7 && 7 in c.items && |Inserted(c, map[], now).items| == |c.items|
  {
    var first, second, third := map["id" := Int(7)], map["id" := Int(INT64_MAX)], map["id" := Int(6)];
    var a := Inserted(New([]), first, now);
    var b := Inserted(a, second, now);
    var c := Inserted(b, third, now);
    assert a.autoID == 8 && b.autoID == INT64_MIN && c.autoID == 7;
    var ops := [Insert(first, now), Insert(second, now), Insert(third, now)];
    assert ops[1..] == [Insert(second, now), Insert(third, now)] && ops[1..][1..] == [Insert(third, now)];
    assert Run(a, ops[1..]) == Run(b, ops[1..][1..]) == Run(c, []) == c by {
      assert [Insert(third, now)][1..] == [];
    }
    InsertReplacesIff(c, map[], now);
  }

  // ---------------------------------------------------------------- snapshot and restore

  lemma SnapshotAccepted(c: Coll)
    requires WellFormed(c)
    ensures |All(c)| == |SortIds(c.items.Keys)|
    ensures Acceptable(Snapshot(c).items) <==> forall id :: id in c.items ==> id > 0
  {
    hide SortIds, NormalizeFields, IdOf;
    var ids, rows := SortIds(c.items.Keys), All(c);
    forall i | 0 <= i < |rows|
      ensures IdOf(rows[i]) == Some(ids[i]) && ids[i] in c.items
    {
      SnapshotRow(c, i);
    }
    if Acceptable(rows) {
      forall id | id in c.items
        ensures id > 0
      {
        var i :| 0 <= i < |ids| && ids[i] == id;
        assert IdOf(rows[i]).value > 0;
      }
    }
  }

  /** The auto id that restoring items in id order ends with. */
  lemma {:induction false} AutoAfterAscending(items: seq<Record>, ids: seq<Int64>, auto: Int64)
    requires |ids| == |items| && Ascending(ids) && auto > 0
    requires forall i :: 0 <= i < |ids| ==> IdOf(items[i]) == Some(ids[i]) && ids[i] > 0
    ensures AutoAfter(items, auto)
         == if ids == [] || ids[|ids| - 1] < auto then auto else Next(ids[|ids| - 1])
  {
    hide IdOf;
    if ids != [] {
      var n := |ids| - 1;
      assert forall i :: 0 <= i < n ==> items[..n][i] == items[i] && ids[..n][i] == ids[i];
      AutoAfterAscending(items[..n], ids[..n], auto);
    }
  }

  /** A restore gives back the auto id: it is above all ids, or it wrapped around behind the largest one. */
  ghost predicate AutoFollows(c: Coll) {
    Numbered(c) || (c.autoID == INT64_MIN && INT64_MAX in c.items)
  }

  /** A snapshot of the collection is accepted and gives the collection back. */
  ghost predicate Restorable(c: Coll) {
    (forall id :: id in c.items ==> id > 0) && AutoFollows(c)
  }

  lemma RestoredAuto(c: Coll)
    requires WellFormed(c) && forall id :: id in c.items ==> id > 0
    ensures Acceptable(Snapshot(c).items)
    ensures Restored(Snapshot(c)).autoID == c.autoID <==> AutoFollows(c)
  {
    hide Acceptable, NormalizeFields, Recorded, AutoAfter, IdOf, All, SortIds;
    SnapshotAccepted(c);
    var ids, rows := SortIds(c.items.Keys), All(c);
    forall i | 0 <= i < |rows|
      ensures IdOf(rows[i]) == Some(ids[i]) && ids[i] in c.items
    {
      SnapshotRow(c, i);
    }
    AutoAfterAscending(rows, ids, if c.autoID < 1 then 1 else c.autoID);
    if ids != [] {
      LastIsLargest(c, ids);
    }
  }

  lemma LastIsLargest(c: Coll, ids: seq<Int64>)
    requires ids == SortIds(c.items.Keys) && ids != []
    ensures ids[|ids| - 1] in c.items && forall id :: id in c.items ==> id <= ids[|ids| - 1]
  {
    hide SortIds;
    forall id | id in c.items
      ensures id <= ids[|ids| - 1]
    {
      var i :| 0 <= i < |ids| && ids[i] == id;
    }
  }

  lemma RestoredRecords(c: Coll)
    requires WellFormed(c) && Acceptable(Snapshot(c).items)
    ensures Restored(Snapshot(c)).items == c.items && Restored(Snapshot(c)).fields == c.fields
  {
    hide Acceptable, SortIds, NormalizeFields, Recorded, AutoAfter, IdOf, All;
    SnapshotAccepted(c);
    var ids, rows := SortIds(c.items.Keys), All(c);
    forall i | 0 <= i < |rows|
      ensures IdOf(rows[i]) == Some(ids[i]) && ids[i] in c.items && rows[i]["id" := Int(ids[i])] == c.items[ids[i]]
    {
      SnapshotRow(c, i);
    }
    RecordedIs(rows, ids, c.items);
  }

  /** Restoring the snapshot of a collection rebuilds it, whatever was there before, if and only if all its ids are
      positive and its auto id is above them all, or has wrapped around behind the largest id while that is in use. */
  lemma SnapshotRestoresIff(c: Coll, before: Coll)
    requires WellFormed(c)
    ensures Acceptable(Snapshot(c).items) && Apply(before, Restore(Snapshot(c))) == c <==> Restorable(c)
  {
    hide Acceptable, Snapshot, Restored, WellFormed, AutoFollows;
    AcceptedIsPositive(c);
    if forall id :: id in c.items ==> id > 0 {
      RestoredAuto(c);
      RestoredRecords(c);
    }
  }

  lemma AcceptedIsPositive(c: Coll)
    requires WellFormed(c)
    ensures Acceptable(Snapshot(c).items) <==> forall id :: id in c.items ==> id > 0
  {
    hide Acceptable, WellFormed;
    SnapshotAccepted(c);
  }

  /** In particular every collection whose auto id is above every stored id is rebuilt. */
  lemma SnapshotRestores(c: Coll, before: Coll)
    requires WellFormed(c) && Numbered(c)
    ensures Acceptable(Snapshot(c).items)
    ensures Apply(before, Restore(Snapshot(c))) == c
  {
    hide Acceptable, Snapshot, Restored, WellFormed;
    SnapshotRestoresIff(c, before);
  }

  const LARGEST: Record := map["id" := Int(INT64_MAX)]
  const SIXTH: Record := map["id" := Int(6)]

  lemma RunTwo(c: Coll, first: Op, second: Op)
    ensures Run(c, [first, second]) == Apply(Apply(c, first), second)
  {
    hide Apply;
    assert [first, second][1..] == [second] && [second][1..] == [];
    assert Run(Apply(c, first), [second]) == Run(Apply(Apply(c, first), second), []);
  }

  /** Behind the largest id an insert without an id stores a record under the smallest one, and no restore accepts the
      snapshot. */
  lemma OwnSnapshotRefused(now: Value)
    ensures var c := Run(New([]), [Insert(LARGEST, now), Insert(map[], now)]);
            INT64_MIN in c.items && !Acceptable(Snapshot(c).items)
  {
    hide Run, Acceptable, Snapshot, Stamped;
    RunTwo(New([]), Insert(LARGEST, now), Insert(map[], now));
    ReachableIsSound([], [Insert(LARGEST, now), Insert(map[], now)]);
    AcceptedIsPositive(Run(New([]), [Insert(LARGEST, now), Insert(map[], now)]));
  }

  /** An id set behind the largest one: the snapshot is accepted, and restoring it anywhere gives another auto id. */
  lemma RestoreWrapsAuto(now: Value, before: Coll)
    ensures var c := Run(New([]), [Insert(LARGEST, now), Insert(SIXTH, now)]);
            Acceptable(Snapshot(c).items) && c.autoID == 7
            && Apply(before, Restore(Snapshot(c))) == c.(autoID := INT64_MIN)
  {
    hide Run, Acceptable, Stamped, AutoAfter, Recorded, All, NormalizeFields, SortIds, IdOf;
    var ops := [Insert(LARGEST, now), Insert(SIXTH, now)];
    var c := Run(New([]), ops);
    LargestThenSixth(now);
    ReachableIsSound([], ops);
    AcceptedIsPositive(c);
    RestoredRecords(c);
    var ids, rows := SortIds(c.items.Keys), All(c);
    SnapshotAccepted(c);
    forall i | 0 <= i < |rows|
      ensures IdOf(rows[i]) == Some(ids[i]) && ids[i] in c.items
    {
      SnapshotRow(c, i);
    }
    AutoAfterAscending(rows, ids, 7);
    assert INT64_MAX in ids;
    LastIsLargest(c, ids);
  }

  lemma LargestThenSixth(now: Value)
    ensures var c := Run(New([]), [Insert(LARGEST, now), Insert(SIXTH, now)]);
            c.items.Keys == {6, INT64_MAX} && c.autoID == 7
  {
    hide Run, Stamped, NormalizeFields;
    RunTwo(New([]), Insert(LARGEST, now), Insert(SIXTH, now));
    var a := Inserted(New([]), LARGEST, now);
    assert IdOf(LARGEST) == Some(INT64_MAX) && IdOf(SIXTH) == Some(6);
    assert a.items.Keys == {INT64_MAX} && a.autoID == INT64_MIN;
    assert Inserted(a, SIXTH, now).items.Keys == {6, INT64_MAX};
  }

  lemma RecordedIs(items: seq<Record>, ids: seq<Int64>, m: map<Int64, Record>)
    requires Acceptable(items) && |ids| == |items|
    requires forall i :: 0 <= i < |ids| ==>
      IdOf(items[i]) == Some(ids[i]) && ids[i] in m && m[ids[i]] == items[i]["id" := Int(ids[i])]
    requires forall id :: id in m ==> id in ids
    ensures Recorded(items) == m
  {
    hide Acceptable, Recorded;
    RecordedLaw(items);
    forall id
      ensures id in Recorded(items) <==> id in m
      ensures id in m ==> id in Recorded(items) && Recorded(items)[id] == m[id]
    {
      if id in m {
        var i :| 0 <= i < |ids| && ids[i] == id;
        assert RecordedAt(items, i);
      }
    }
  }

  lemma SnapshotRow(c: Coll, i: nat)
    requires WellFormed(c) && i < |All(c)|
    ensures |SortIds(c.items.Keys)| == |All(c)|
    ensures var id := SortIds(c.items.Keys)[i];
            id in c.items && IdOf(All(c)[i]) == Some(id) && All(c)[i]["id" := Int(id)] == c.items[id]
  {
    hide SortIds, NormalizeFields;
    var id := SortIds(c.items.Keys)[i];
    assert id in SortIds(c.items.Keys);
    assert All(c)[i] == c.items[id];
    assert c.items[id]["id"] == Int(id);
  }

  // ---------------------------------------------------------------- look-ups

  /** What a scan compares: a missing field counts as nil. */
  predicate Matches(r: Record, field: string, key: string) {
    IndexKey(Field(r, field)) == key
  }

  /** What an index groups: a present, non-nil value. */
  predicate Keyed(r: Record, field: string, key: string) {
    Field(r, field) != Nil && IndexKey(Field(r, field)) == key
  }

  ghost function Select(rows: seq<Record>, field: string, key: string): seq<Record> {
    if rows == [] then []
    else (if Matches(rows[0], field, key) then [rows[0]] else []) + Select(rows[1..], field, key)
  }

  /** The unindexed look-up: all records in id order, those that match. */
  ghost function Scan(c: Coll, field: string, key: string): seq<Record> {
    Select(All(c), field, key)
  }

  ghost function KeyedIds(items: map<Int64, Record>, field: string, key: string): set<Int64> {
    set id | id in items && Keyed(items[id], field, key)
  }

  /** The indexed look-up: the bucket's records in id order. */
  ghost function Indexed(c: Coll, field: string, key: string): seq<Record> {
    Rows(c.items, SortIds(KeyedIds(c.items, field, key)))
  }

  ghost function Found(c: Coll, field: string, value: Value): seq<Record> {
    if field in c.fields then Indexed(c, field, IndexKey(value)) else Scan(c, field, IndexKey(value))
  }

  ghost function MatchingIds(items: map<Int64, Record>, ids: seq<Int64>, field: string, key: string): (r: seq<Int64>)
    requires forall k :: k in ids ==> k in items
    ensures forall k :: k in r <==> k in ids && Matches(items[k], field, key)
  {
    if ids == [] then []
    else (if Matches(items[ids[0]], field, key) then [ids[0]] else []) + MatchingIds(items, ids[1..], field, key)
  }

  lemma AscendingPrepend(first: Int64, rest: seq<Int64>)
    requires Ascending(rest) && forall k :: k in rest ==> first < k
    ensures Ascending([first] + rest)
  {
    assert forall j :: 0 <= j < |rest| ==> rest[j] in rest;
  }

  lemma TailAscending(ids: seq<Int64>)
    requires Ascending(ids) && ids != []
    ensures Ascending(ids[1..]) && forall k :: k in ids[1..] ==> ids[0] < k
  {
  }

  lemma RowsPrepend(items: map<Int64, Record>, first: Int64, rest: seq<Int64>)
    requires first in items && forall k :: k in rest ==> k in items
    ensures Rows(items, [first] + rest) == [items[first]] + Rows(items, rest)
  {
  }

  lemma {:induction false} SelectIsRows(items: map<Int64, Record>, ids: seq<Int64>, field: string, key: string)
    requires Ascending(ids) && forall k :: k in ids ==> k in items
    ensures var m := MatchingIds(items, ids, field, key);
            Ascending(m) && Select(Rows(items, ids), field, key) == Rows(items, m)
  {
    hide Matches, Rows, Ascending;
    if ids == [] {
      assert Rows(items, ids) == [];
    } else {
      TailAscending(ids);
      SelectIsRows(items, ids[1..], field, key);
      RowsPrepend(items, ids[0], ids[1..]);
      assert [ids[0]] + ids[1..] == ids;
      assert Rows(items, ids)[1..] == Rows(items, ids[1..]);
      var rest := MatchingIds(items, ids[1..], field, key);
      if Matches(items[ids[0]], field, key) {
        AscendingPrepend(ids[0], rest);
        RowsPrepend(items, ids[0], rest);
      } else {
        assert [] + rest == rest;
      }
    }
  }

  lemma ScanIsRows(c: Coll, field: string, key: string)
    ensures var ids := set id | id in c.items && Matches(c.items[id], field, key);
            Scan(c, field, key) == Rows(c.items, SortIds(ids))
  {
    var all := SortIds(c.items.Keys);
    var ids := set id | id in c.items && Matches(c.items[id], field, key);
    SelectIsRows(c.items, all, field, key);
    AscendingUnique(MatchingIds(c.items, all, field, key), SortIds(ids));
  }

  /** The index gives what the scan gives exactly when the key is not that of nil or no record lacks the field. */
  lemma IndexedIsScanIff(c: Coll, field: string, key: string)
    ensures Indexed(c, field, key) == Scan(c, field, key)
       <==> key != NIL_KEY || forall id :: id in c.items ==> Field(c.items[id], field) != Nil
  {
    ScanIsRows(c, field, key);
    var matching := set id | id in c.items && Matches(c.items[id], field, key);
    var keyed := KeyedIds(c.items, field, key);
    if key != NIL_KEY || forall id :: id in c.items ==> Field(c.items[id], field) != Nil {
      assert matching == keyed;
    } else {
      var id :| id in c.items && Field(c.items[id], field) == Nil;
      assert id in matching && id !in keyed;
      assert keyed < matching;
      SortedSize(keyed);
      SortedSize(matching);
      SmallerSet(keyed, matching);
    }
  }

  lemma SmallerSet(a: set<Int64>, b: set<Int64>)
    requires a < b
    ensures |a| < |b|
  {
    assert b == a + (b - a);
    assert b - a != {};
  }

  lemma {:induction false} SortedSize(ids: set<Int64>)
    ensures |SortIds(ids)| == |ids|
    decreases |ids|
  {
    if ids != {} {
      SortedSize(ids - {LeastId(ids)});
    }
  }

  /** What a look-up compares: an index leaves nil and missing values out, a scan does not. */
  ghost predicate Hits(c: Coll, r: Record, field: string, key: string) {
    if field in c.fields then Keyed(r, field, key) else Matches(r, field, key)
  }

  /** A look-up returns exactly the records it should, each once, in id order; unless the key is that of nil, they do
      not depend on there being an index. */
  lemma FoundLaw(c: Coll, field: string, value: Value)
    ensures var ids := set id | id in c.items && Hits(c, c.items[id], field, IndexKey(value));
            Found(c, field, value) == Rows(c.items, SortIds(ids))
    ensures forall r :: r in Found(c, field, value) <==>
      exists id :: id in c.items && c.items[id] == r && Hits(c, r, field, IndexKey(value))
    ensures IndexKey(value) != NIL_KEY ==>
      Found(c, field, value) == Scan(c, field, IndexKey(value))
      && forall r :: r in Found(c, field, value) <==>
           exists id :: id in c.items && c.items[id] == r && Matches(r, field, IndexKey(value))
  {
    hide Matches, Keyed, Scan, SortIds, IndexKey;
    var key := IndexKey(value);
    IndexedIsScanIff(c, field, key);
    ScanIsRows(c, field, key);
    var hits := set id | id in c.items && Hits(c, c.items[id], field, key);
    var matches := set id | id in c.items && Matches(c.items[id], field, key);
    assert Found(c, field, value) == Rows(c.items, SortIds(hits)) by {
      assert field in c.fields ==> hits == KeyedIds(c.items, field, key);
      assert field !in c.fields ==> hits == matches;
    }
    RowsOfIds(c.items, hits);
    RowsOfIds(c.items, matches);
  }

  lemma RowsOfIds(items: map<Int64, Record>, ids: set<Int64>)
    requires forall id :: id in ids ==> id in items
    ensures forall r :: r in Rows(items, SortIds(ids)) <==> exists id :: id in ids && items[id] == r
  {
    hide SortIds;
    var order := SortIds(ids);
    var rows := Rows(items, order);
    forall r
      ensures r in rows <==> exists id :: id in ids && items[id] == r
    {
      if r in rows {
        var i :| 0 <= i < |rows| && rows[i] == r;
        assert order[i] in order;
      }
      if id :| id in ids && items[id] == r {
        assert id in order;
        var i :| 0 <= i < |order| && order[i] == id;
        assert rows[i] == r;
      }
    }
  }

  /** A record that lacks an indexed field: the scan for nil finds it, the index does not. */
  lemma IndexMissesNil(now: Value)
    ensures var c := Run(New(["f"]), [Insert(map[], now)]);
            "f" in c.fields && Indexed(c, "f", NIL_KEY) == [] && Scan(c, "f", NIL_KEY) == [Stamped(map[], 1, now)]
  {
    hide Indexed, Scan, Stamped, NormalizeFields;
    var c := Inserted(New(["f"]), map[], now);
    assert [Insert(map[], now)][1..] == [];
    assert Run(New(["f"]), [Insert(map[], now)]) == Run(c, []) == c;
    OneFieldIsNormal();
    StampsNoField(now);
    OnlyRecordMissed(c, Stamped(map[], 1, now));
  }

  lemma OneFieldIsNormal()
    ensures "f" in NormalizeFields(["f"])
  {
  }

  lemma StampsNoField(now: Value)
    ensures "f" !in Stamped(map[], 1, now)
  {
  }

  lemma OnlyRecordMissed(c: Coll, r: Record)
    requires c.items == map[1 := r] && "f" in c.fields && "f" !in r
    ensures Indexed(c, "f", NIL_KEY) == [] && Scan(c, "f", NIL_KEY) == [r]
  {
    hide SortIds, Select;
    assert KeyedIds(c.items, "f", NIL_KEY) == {};
    assert Matches(r, "f", NIL_KEY);
    var all := set id | id in c.items && Matches(c.items[id], "f", NIL_KEY);
    assert all == {1};
    ScanIsRows(c, "f", NIL_KEY);
    NoIds();
    AscendingUnique(SortIds(all), [1]);
    assert Rows(c.items, [1]) == [r];
  }

  lemma NoIds()
    ensures SortIds({}) == []
  {
  }
}
