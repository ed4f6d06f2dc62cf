/** Snapshot and restore of the whole store. */
module WholeStore {
  import opened Tables
  import opened GoText
  import opened RecordStore

  datatype State = State(colls: map<string, Coll>, data: map<string, Value>)
  datatype StoreSnapshot = StoreSnapshot(colls: map<string, CollSnapshot>, data: map<string, Value>)

  ghost function TakeAll(st: State): StoreSnapshot {
    StoreSnapshot(map name | name in st.colls :: Snapshot(st.colls[name]), st.data)
  }

  /** The collection a snapshot is restored into: a new one unless one with the same fields is there. */
  ghost function Target(colls: map<string, Coll>, name: string, s: CollSnapshot): Coll {
    if name in colls && colls[name].fields == NormalizeFields(s.indexFields) then colls[name] else New(s.indexFields)
  }

  /** Restores the named snapshots one after the other, up to the first that is refused. */
  ghost function RestoreInOrder(colls: map<string, Coll>, snaps: map<string, CollSnapshot>,
                                order: seq<string>): (map<string, Coll>, bool)
    requires forall name :: name in order ==> name in snaps
    decreases |order|
  {
    if order == [] then (colls, true)
    else
      var name := order[0];
      if !Acceptable(snaps[name].items) then (colls[name := Target(colls, name, snaps[name])], false)
      else RestoreInOrder(colls[name := Restored(snaps[name])], snaps, order[1..])
  }

  /** The order in which the loop over a map visits its keys. */
  ghost predicate IsOrder(order: seq<string>, keys: set<string>) {
    (forall name :: name in order <==> name in keys) && forall i, j :: 0 <= i < j < |order| ==> order[i] != order[j]
  }

  function Kept(colls: map<string, Coll>, names: set<string>): map<string, Coll> {
    map name | name in colls && name in names :: colls[name]
  }

  ghost function RestoreAll(st: State, s: StoreSnapshot, order: seq<string>): (State, bool)
    requires IsOrder(order, s.colls.Keys)
  {
    var (colls, ok) := RestoreInOrder(Kept(st.colls, s.colls.Keys), s.colls, order);
    (State(colls, if ok then s.data else st.data), ok)
  }

  // ---------------------------------------------------------------- what it keeps

  ghost predicate Sound(st: State) {
    forall name :: name in st.colls ==> WellFormed(st.colls[name]) && Numbered(st.colls[name])
  }

  lemma {:induction false} RestoreInOrderLaw(colls: map<string, Coll>, snaps: map<string, CollSnapshot>,
                                             order: seq<string>)
    requires forall name :: name in order ==> name in snaps
    ensures var (after, ok) := RestoreInOrder(colls, snaps, order);
            (ok <==> forall name :: name in order ==> Acceptable(snaps[name].items))
            && (forall name :: name !in order ==>
                (name in after <==> name in colls) && (name in colls ==> after[name] == colls[name]))
            && (ok ==> forall name :: name in order ==> name in after && after[name] == Restored(snaps[name]))
    decreases |order|
  {
    hide Restored, Acceptable;
    if order != [] {
      var name := order[0];
      assert order == [name] + order[1..];
      if Acceptable(snaps[name].items) {
        RestoreInOrderLaw(colls[name := Restored(snaps[name])], snaps, order[1..]);
      }
    }
  }

  /** A restore succeeds exactly when every collection's snapshot is acceptable, and then the store is what the
      snapshot says, whatever it held before and in whichever order the collections are visited. */
  lemma RestoreAllLaw(st: State, s: StoreSnapshot, order: seq<string>)
    requires IsOrder(order, s.colls.Keys)
    ensures RestoreAll(st, s, order).1 <==> forall name :: name in s.colls ==> Acceptable(s.colls[name].items)
    ensures RestoreAll(st, s, order).1 ==>
      RestoreAll(st, s, order).0
      == State(map name | name in s.colls && Acceptable(s.colls[name].items) :: Restored(s.colls[name]), s.data)
  {
    hide Restored, Acceptable, RestoreInOrder;
    RestoreInOrderLaw(Kept(st.colls, s.colls.Keys), s.colls, order);
    if RestoreAll(st, s, order).1 {
      assert RestoreAll(st, s, order).0.colls
          == map name | name in s.colls && Acceptable(s.colls[name].items) :: Restored(s.colls[name]);
    }
  }

  /** Restoring the snapshot of a store rebuilds the store, whatever the target held and in whichever order the
      collections are visited, if and only if each of its collections can be rebuilt from its snapshot. */
  lemma StoreSnapshotRestoresIff(st: State, before: State, order: seq<string>)
    requires IsOrder(order, st.colls.Keys) && forall name :: name in st.colls ==> WellFormed(st.colls[name])
    ensures RestoreAll(before, TakeAll(st), order) == (st, true)
       <==> forall name :: name in st.colls ==> Restorable(st.colls[name])
  {
    hide Restored, Acceptable, RestoreInOrder, Snapshot, WellFormed, Restorable;
    var s := TakeAll(st);
    assert s.colls.Keys == st.colls.Keys;
    forall name | name in st.colls
      ensures Restorable(st.colls[name])
         <==> Acceptable(s.colls[name].items) && Restored(s.colls[name]) == st.colls[name]
    {
      SnapshotRestoresIff(st.colls[name], st.colls[name]);
    }
    RestoreAllLaw(before, s, order);
    if forall name :: name in st.colls ==> Restorable(st.colls[name]) {
      assert RestoreAll(before, s, order).0.colls == st.colls;
    }
    if RestoreAll(before, s, order) == (st, true) {
      forall name | name in st.colls
        ensures Restored(s.colls[name]) == st.colls[name]
      {
        assert RestoreAll(before, s, order).0.colls[name] == Restored(s.colls[name]);
      }
    }
  }

  /** In particular a store of collections whose auto ids are above all stored ids is rebuilt. */
  lemma StoreSnapshotRestores(st: State, before: State, order: seq<string>)
    requires Sound(st) && IsOrder(order, st.colls.Keys)
    ensures RestoreAll(before, TakeAll(st), order) == (st, true)
  {
    hide RestoreAll, WellFormed;
    StoreSnapshotRestoresIff(st, before, order);
  }

  /** Every step before the first refused snapshot restores what is there already, and the refused one has a target. */
  ghost predicate ChangesNothing(colls: map<string, Coll>, snaps: map<string, CollSnapshot>, order: seq<string>)
    requires forall name :: name in order ==> name in snaps
    decreases |order|
  {
    order == [] ||
    (var name := order[0];
     name in colls &&
     if !Acceptable(snaps[name].items) then colls[name].fields == NormalizeFields(snaps[name].indexFields)
     else colls[name] == Restored(snaps[name]) && ChangesNothing(colls, snaps, order[1..]))
  }

  lemma {:induction false} ChangesNothingIff(colls: map<string, Coll>, snaps: map<string, CollSnapshot>,
                                             order: seq<string>)
    requires forall name :: name in order ==> name in snaps
    requires forall i, j :: 0 <= i < j < |order| ==> order[i] != order[j]
    ensures RestoreInOrder(colls, snaps, order).0 == colls <==> ChangesNothing(colls, snaps, order)
    decreases |order|
  {
    hide Restored, Acceptable, NormalizeFields;
    if order != [] {
      var name := order[0];
      if Acceptable(snaps[name].items) {
        var next := colls[name := Restored(snaps[name])];
        RestoreInOrderLaw(next, snaps, order[1..]);
        assert name !in order[1..];
        ChangesNothingIff(next, snaps, order[1..]);
        if name in colls && colls[name] == Restored(snaps[name]) {
          assert next == colls;
        }
      }
    }
  }

  /** For one order of the loop: nothing changes exactly when the snapshot drops no collection and every collection
      visited before the refused one already holds what its snapshot says. */
  lemma UnchangedInOrder(st: State, s: StoreSnapshot, order: seq<string>)
    requires IsOrder(order, s.colls.Keys) && !RestoreAll(st, s, order).1
    ensures RestoreAll(st, s, order).0 == st
       <==> st.colls.Keys <= s.colls.Keys && ChangesNothing(st.colls, s.colls, order)
  {
    hide RestoreInOrder, ChangesNothing;
    var kept := Kept(st.colls, s.colls.Keys);
    ChangesNothingIff(kept, s.colls, order);
    RestoreInOrderLaw(kept, s.colls, order);
    if st.colls.Keys <= s.colls.Keys {
      assert kept == st.colls;
    } else {
      var name :| name in st.colls && name !in s.colls;
      assert name !in RestoreInOrder(kept, s.colls, order).0;
    }
  }

  /** The collection is there and already is what its snapshot says; for a refused snapshot, it has the same fields. */
  ghost predicate Settled(colls: map<string, Coll>, name: string, snap: CollSnapshot) {
    name in colls && if Acceptable(snap.items) then colls[name] == Restored(snap)
      else colls[name].fields == NormalizeFields(snap.indexFields)
  }

  ghost predicate AllSettled(colls: map<string, Coll>, snaps: map<string, CollSnapshot>) {
    forall name :: name in snaps ==> Settled(colls, name, snaps[name])
  }

  lemma {:induction false} SettledChangesNothing(colls: map<string, Coll>, snaps: map<string, CollSnapshot>,
                                                 order: seq<string>)
    requires AllSettled(colls, snaps) && forall name :: name in order ==> name in snaps
    ensures ChangesNothing(colls, snaps, order)
    decreases |order|
  {
    hide Restored, Acceptable, NormalizeFields;
    if order != [] {
      assert Settled(colls, order[0], snaps[order[0]]);
      SettledChangesNothing(colls, snaps, order[1..]);
    }
  }

  /** Some order visits the name first. */
  ghost function FirstVisiting(keys: set<string>, name: string): (order: seq<string>)
    requires name in keys
    ensures IsOrder(order, keys) && order[0] == name
  {
    var rest := SortKeys(keys - {name});
    assert forall i, j :: 0 <= i < j < |rest| ==> rest[i] != rest[j] by { SortedDistinct(rest); }
    assert forall i :: 0 <= i < |rest| ==> rest[i] in rest;
    [name] + rest
  }

  lemma SortedDistinct(keys: seq<string>)
    requires forall i, j :: 0 <= i < j < |keys| ==> Less(keys[i], keys[j])
    ensures forall i, j :: 0 <= i < j < |keys| ==> keys[i] != keys[j]
  {
    forall i, j | 0 <= i < j < |keys|
      ensures keys[i] != keys[j]
    {
      LessIrreflexive(keys[i]);
    }
  }

  /** A restore that is refused leaves the store as it was, whichever order the collections are visited in, if and only
      if the snapshot drops no collection, every collection with an acceptable snapshot already is what it says, and
      every other one named is there with the same fields. */
  lemma RefusedRestoreUnchangedIff(st: State, s: StoreSnapshot)
    requires exists name :: name in s.colls && !Acceptable(s.colls[name].items)
    ensures (forall order :: IsOrder(order, s.colls.Keys) ==> RestoreAll(st, s, order).0 == st)
       <==> st.colls.Keys <= s.colls.Keys && AllSettled(st.colls, s.colls)
  {
    hide RestoreAll, ChangesNothing, Acceptable, Settled, IsOrder;
    if st.colls.Keys <= s.colls.Keys && AllSettled(st.colls, s.colls) {
      forall order | IsOrder(order, s.colls.Keys)
        ensures RestoreAll(st, s, order).0 == st
      {
        RestoreAllLaw(st, s, order);
        OrderNames(order, s.colls.Keys);
        SettledChangesNothing(st.colls, s.colls, order);
        UnchangedInOrder(st, s, order);
      }
    }
    if forall order :: IsOrder(order, s.colls.Keys) ==> RestoreAll(st, s, order).0 == st {
      forall name | name in s.colls
        ensures st.colls.Keys <= s.colls.Keys && Settled(st.colls, name, s.colls[name])
      {
        var order := FirstVisiting(s.colls.Keys, name);
        RestoreAllLaw(st, s, order);
        UnchangedInOrder(st, s, order);
        OrderNames(order, s.colls.Keys);
        FirstSettled(st.colls, s.colls, order);
      }
    }
  }

  lemma OrderNames(order: seq<string>, keys: set<string>)
    requires IsOrder(order, keys)
    ensures forall name :: name in order ==> name in keys
  {
  }

  lemma FirstSettled(colls: map<string, Coll>, snaps: map<string, CollSnapshot>, order: seq<string>)
    requires order != [] && (forall name :: name in order ==> name in snaps) && ChangesNothing(colls, snaps, order)
    ensures Settled(colls, order[0], snaps[order[0]])
  {
    hide Acceptable, Restored, NormalizeFields;
  }

  /** A refused restore can lose data: the collection the snapshot leaves out is gone. */
  lemma RefusedRestoreLosesCollection(users: Coll)
    requires users.items != map[]
    ensures var st := State(map["users" := users], map[]);
            var s := StoreSnapshot(map["events" := CollSnapshot([map[]], 1, [])], map[]);
            IsOrder(["events"], s.colls.Keys) && !RestoreAll(st, s, ["events"]).1
            && "users" !in RestoreAll(st, s, ["events"]).0.colls
  {
    var st := State(map["users" := users], map[]);
    var s := StoreSnapshot(map["events" := CollSnapshot([map[]], 1, [])], map[]);
    assert s.colls.Keys == {"events"};
    assert IdOf(s.colls["events"].items[0]) == None;
    RestoreAllLaw(st, s, ["events"]);
    RestoreInOrderLaw(Kept(st.colls, s.colls.Keys), s.colls, ["events"]);
  }

  // ---------------------------------------------------------------- collections by name

  /** Asking for a collection: the one of that name unless other fields are asked for, else a new one. */
  ghost function Requested(st: State, name: string, fields: seq<string>): Option<Coll> {
    var requested := NormalizeFields(fields);
    if name !in st.colls then Some(New(fields))
    else if requested != [] && st.colls[name].fields != requested then None
    else Some(st.colls[name])
  }

  ghost function Emptied(st: State): State {
    State(map name | name in st.colls :: Cleared(st.colls[name]), map[])
  }
}
