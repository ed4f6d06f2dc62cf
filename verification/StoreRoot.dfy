/** The store as it runs: named collection objects, emptied and restored in place. */
module StoreRoot {
  import opened Tables
  import opened RecordStore
  import opened WholeStore
  import opened StoreObjects

  class Store {
    var collections: map<string, Collection>
    var data: map<string, Value>

    ghost predicate Valid()
      reads this, collections.Values
    {
      && (forall name :: name in collections ==> collections[name].Valid())
      && (forall a, b :: a in collections && b in collections && a != b ==> collections[a] != collections[b])
    }

    ghost function Contents(): State
      reads this, collections.Values
    {
      State(map name | name in collections :: collections[name].State(), data)
    }

    constructor ()
      ensures Valid() && Contents() == State(map[], map[])
    {
      collections, data := map[], map[];
      new;
      assert Contents().colls == map[];
    }

    /** The named collection, made on first use; refused when other index fields are asked for. */
    method Named(name: string, fields: seq<string>) returns (c: Option<Collection>)
      requires Valid()
      modifies this`collections
      ensures c.Some? <==> Requested(old(Contents()), name, fields).Some?
      ensures c.Some? ==> c.value.State() == Requested(old(Contents()), name, fields).value
      ensures c.Some? ==> name in collections && collections[name] == c.value
      ensures Valid()
      ensures Contents() == if c.Some? then old(Contents()).(colls := old(Contents()).colls[name := c.value.State()])
                            else old(Contents())
    {
      hide Collection.Valid, NormalizeFields;
      var requested := NormalizedFields(fields);
      if name in collections {
        if requested != [] && collections[name].indexFields != requested {
          return None;
        }
        assert Contents().colls[name := collections[name].State()] == Contents().colls;
        return Some(collections[name]);
      }
      var made := Put(name, fields);
      return Some(made);
    }

    /** A new collection under the name, in place of any other. */
    method Put(name: string, fields: seq<string>) returns (made: Collection)
      requires Valid()
      modifies this`collections
      ensures Valid() && fresh(made) && collections == old(collections)[name := made]
      ensures Contents() == State(old(Contents()).colls[name := New(fields)], data) && made.State() == New(fields)
    {
      hide Collection.Valid, NormalizeFields, New;
      made := new Collection(fields);
      collections := collections[name := made];
      assert made.State() == New(fields) && forall n :: n in old(collections) ==>
        old(collections)[n].State() == old(collections[n].State());
      assert Contents().colls == old(Contents()).colls[name := New(fields)];
    }

    method Reset()
      requires Valid()
      modifies this, collections.Values
      ensures Valid() && collections == old(collections) && Contents() == Emptied(old(Contents()))
    {
      hide Collection.Valid;
      data := map[];
      var todo := collections.Keys;
      while todo != {}
        invariant todo <= collections.Keys && collections == old(collections) && data == map[] && Valid()
        invariant forall name :: name in collections ==>
          collections[name].State() == if name in todo then old(collections[name].State())
            else Cleared(old(collections[name].State()))
        decreases |todo|
      {
        var name :| name in todo;
        collections[name].Clear();
        todo := todo - {name};
      }
      assert Contents().colls == Emptied(old(Contents())).colls;
    }

    method Snapshots() returns (s: StoreSnapshot)
      requires Valid()
      ensures s == TakeAll(Contents())
    {
      hide Snapshot, Collection.Valid;
      var todo := collections.Keys;
      var snaps: map<string, CollSnapshot> := map[];
      while todo != {}
        invariant todo <= collections.Keys && snaps.Keys == collections.Keys - todo
        invariant forall name :: name in snaps ==> snaps[name] == Snapshot(collections[name].State())
        decreases |todo|
      {
        var name :| name in todo;
        var snap := collections[name].TakeSnapshot();
        snaps := snaps[name := snap];
        todo := todo - {name};
      }
      s := StoreSnapshot(snaps, data);
      assert s.colls == TakeAll(Contents()).colls;
    }

    /** Drops what the snapshot lacks, then restores its collections in the given order of the loop. */
    method RestoreFrom(s: StoreSnapshot, order: seq<string>) returns (ok: bool)
      requires Valid() && IsOrder(order, s.colls.Keys)
      modifies this, collections.Values
      ensures Valid()
      ensures (Contents(), ok) == RestoreAll(old(Contents()), s, order)
    {
      hide Collection.Valid, RestoreInOrder;
      KeepOnly(s.colls.Keys);
      ok := RestoreEach(s.colls, order);
      if ok {
        ghost var restored := Contents().colls;
        data := s.data;
        assert Contents().colls == restored;
      }
    }

    method KeepOnly(names: set<string>)
      requires Valid()
      modifies this`collections
      ensures Valid() && collections.Values <= old(collections.Values)
      ensures Contents() == State(Kept(old(Contents()).colls, names), data)
    {
      hide Collection.Valid;
      collections := map name | name in collections && name in names :: collections[name];
      assert Contents().colls == Kept(old(Contents()).colls, names);
    }

    method RestoreEach(snaps: map<string, CollSnapshot>, order: seq<string>) returns (ok: bool)
      requires Valid() && forall name :: name in order ==> name in snaps
      modifies this`collections, collections.Values
      ensures Valid() && data == old(data)
      ensures (Contents().colls, ok) == RestoreInOrder(old(Contents()).colls, snaps, order)
    {
      hide Collection.Valid, Acceptable, Restored, RestoreInOrder, Target;
      assert order[0..] == order;
      for i := 0 to |order|
        invariant Valid() && data == old(data)
        invariant forall name :: name in collections ==>
          collections[name] in old(collections.Values) || fresh(collections[name])
        invariant RestoreInOrder(old(Contents()).colls, snaps, order)
                  == RestoreInOrder(Contents().colls, snaps, order[i..])
      {
        RestoreStep(Contents().colls, snaps, order, i);
        var restored := RestoreOne(order[i], snaps[order[i]]);
        if !restored {
          return false;
        }
      }
      RestoreDone(Contents().colls, snaps, order);
      return true;
    }

    method RestoreOne(name: string, snap: CollSnapshot) returns (ok: bool)
      requires Valid()
      modifies this`collections, if name in collections then {collections[name]} else {}
      ensures Valid() && ok == Acceptable(snap.items)
      ensures name in collections
              && (fresh(collections[name]) || (name in old(collections) && collections[name] == old(collections[name])))
      ensures forall other :: other in collections && other != name ==>
        other in old(collections) && collections[other] == old(collections[other])
      ensures Contents() == State(old(Contents()).colls[name := if ok then Restored(snap)
                                                        else Target(old(Contents()).colls, name, snap)], old(data))
    {
      hide Collection.Valid, Collection.State, NormalizeFields, Acceptable, Restored, Target;
      MakeTarget(name, snap);
      ghost var before := Contents().colls;
      ok := RestoreNamed(name, snap);
      assert Contents().colls == before[name := Contents().colls[name]];
    }

    /** Puts a new collection under the name unless one with the same fields is there. */
    method MakeTarget(name: string, snap: CollSnapshot)
      requires Valid()
      modifies this`collections
      ensures Valid() && name in collections
      ensures fresh(collections[name]) || (name in old(collections) && collections[name] == old(collections[name]))
      ensures forall other :: other != name ==> (other in collections <==> other in old(collections))
      ensures forall other :: other in collections && other != name ==> collections[other] == old(collections[other])
      ensures Contents() == State(old(Contents()).colls[name := Target(old(Contents()).colls, name, snap)], old(data))
    {
      hide Collection.Valid, NormalizeFields;
      ghost var before := Contents().colls;
      var fields := NormalizedFields(snap.indexFields);
      if name !in collections || collections[name].indexFields != fields {
        var made := Put(name, snap.indexFields);
      }
      assert Contents().colls == before[name := Target(before, name, snap)];
    }

    method RestoreNamed(name: string, snap: CollSnapshot) returns (ok: bool)
      requires Valid() && name in collections
      modifies collections[name]
      ensures Valid() && ok == Acceptable(snap.items)
      ensures Contents() == State(old(Contents()).colls[name := Apply(old(Contents()).colls[name],
                                                                      Restore(snap))], data)
    {
      hide Collection.Valid, Apply;
      ok := collections[name].RestoreFrom(snap);
      assert Contents().colls == old(Contents()).colls[name := collections[name].State()];
    }
  }

  lemma RestoreStep(colls: map<string, Coll>, snaps: map<string, CollSnapshot>, order: seq<string>, i: nat)
    requires i < |order| && forall name :: name in order ==> name in snaps
    ensures var snap := snaps[order[i]];
            RestoreInOrder(colls, snaps, order[i..]) ==
            if Acceptable(snap.items) then RestoreInOrder(colls[order[i] := Restored(snap)], snaps, order[i + 1..])
            else (colls[order[i] := Target(colls, order[i], snap)], false)
  {
    hide Acceptable, Restored, Target;
    assert order[i..][0] == order[i] && order[i..][1..] == order[i + 1..];
  }

  lemma RestoreDone(colls: map<string, Coll>, snaps: map<string, CollSnapshot>, order: seq<string>)
    requires forall name :: name in order ==> name in snaps
    ensures RestoreInOrder(colls, snaps, order[|order|..]) == (colls, true)
  {
  }
}
