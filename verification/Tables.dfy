/** Rows of one collection, kept in id order, and the look-ups the services run over them. */
module Tables {

  datatype Option<+T> = None | Some(value: T)

  /** Position of the first row with the given key, as the find loops of the services return it. */
  function Find<T, K(==)>(rows: seq<T>, key: T -> K, k: K): (r: Option<nat>)
    ensures r.Some? ==> r.value < |rows| && key(rows[r.value]) == k
    ensures r.Some? ==> forall j :: 0 <= j < r.value ==> key(rows[j]) != k
    ensures r.None? ==> forall j :: 0 <= j < |rows| ==> key(rows[j]) != k
  {
    if rows == [] then None
    else if key(rows[0]) == k then Some(0)
    else match Find(rows[1..], key, k)
      case None => assert forall j :: 1 <= j < |rows| ==> rows[j] == rows[1..][j - 1]; None
      case Some(i) => assert forall j :: 1 <= j <= i ==> rows[j] == rows[1..][j - 1]; Some(i + 1)
  }

  ghost predicate HasKey<T, K>(rows: seq<T>, key: T -> K, k: K) {
    exists i :: 0 <= i < |rows| && key(rows[i]) == k
  }

  ghost predicate Unique<T, K>(rows: seq<T>, key: T -> K) {
    forall i, j :: 0 <= i < j < |rows| ==> key(rows[i]) != key(rows[j])
  }

  /** The table as a map: every key leads to the first row that carries it. */
  ghost function Index<T, K(!new)>(rows: seq<T>, key: T -> K): (m: map<K, T>)
    ensures forall k :: k in m <==> HasKey(rows, key, k)
    ensures forall k :: k in m ==> key(m[k]) == k && m[k] in rows
  {
    if rows == [] then map[]
    else
      var m := Index(rows[..|rows| - 1], key);
      var last := rows[|rows| - 1];
      assert forall k :: HasKey(rows, key, k) ==> HasKey(rows[..|rows| - 1], key, k) || key(last) == k by {
        forall k | HasKey(rows, key, k)
          ensures HasKey(rows[..|rows| - 1], key, k) || key(last) == k
        {
          var i :| 0 <= i < |rows| && key(rows[i]) == k;
          if i < |rows| - 1 {
            assert key(rows[..|rows| - 1][i]) == k;
          }
        }
      }
      assert forall k :: HasKey(rows[..|rows| - 1], key, k) ==> HasKey(rows, key, k) by {
        forall k | HasKey(rows[..|rows| - 1], key, k)
          ensures HasKey(rows, key, k)
        {
          var i :| 0 <= i < |rows| - 1 && key(rows[..|rows| - 1][i]) == k;
          assert key(rows[i]) == k;
        }
      }
      assert HasKey(rows, key, key(last)) by { assert key(rows[|rows| - 1]) == key(last); }
      if key(last) in m then m else m[key(last) := last]
  }

  lemma IndexAppend<T, K(!new)>(rows: seq<T>, key: T -> K, row: T)
    ensures Index(rows + [row], key) ==
            if key(row) in Index(rows, key) then Index(rows, key) else Index(rows, key)[key(row) := row]
  {
    assert (rows + [row])[..|rows|] == rows;
  }

  lemma UniqueAppend<T, K(!new)>(rows: seq<T>, key: T -> K, row: T)
    requires Unique(rows, key) && key(row) !in Index(rows, key)
    ensures Unique(rows + [row], key)
  {
    forall i, j | 0 <= i < j < |rows + [row]|
      ensures key((rows + [row])[i]) != key((rows + [row])[j])
    {
      if j == |rows| {
        assert HasKey(rows, key, key(rows[i]));
      }
    }
  }

  /** With unique keys every row is the one its key leads to. */
  lemma {:induction false} IndexAt<T, K(!new)>(rows: seq<T>, key: T -> K, i: nat)
    requires Unique(rows, key) && i < |rows|
    ensures key(rows[i]) in Index(rows, key) && Index(rows, key)[key(rows[i])] == rows[i]
  {
    var k := key(rows[i]);
    assert HasKey(rows, key, k);
    var row := Index(rows, key)[k];
    assert key(row) == k && row in rows;
    var j :| 0 <= j < |rows| && rows[j] == row;
    assert key(rows[j]) == k;
  }

  /** The map is determined by what unique keys lead to. */
  lemma IndexIs<T, K(!new)>(rows: seq<T>, key: T -> K, m: map<K, T>)
    requires Unique(rows, key)
    requires forall i :: 0 <= i < |rows| ==> key(rows[i]) in m && m[key(rows[i])] == rows[i]
    requires forall k :: k in m ==> HasKey(rows, key, k)
    ensures Index(rows, key) == m
  {
    forall k | k in m
      ensures k in Index(rows, key) && Index(rows, key)[k] == m[k]
    {
      var i :| 0 <= i < |rows| && key(rows[i]) == k;
      IndexAt(rows, key, i);
    }
  }

  /** The first row found is the row of the map. */
  lemma {:induction false} FindIsIndex<T, K(!new)>(rows: seq<T>, key: T -> K, k: K)
    ensures Find(rows, key, k).Some? <==> k in Index(rows, key)
    ensures Find(rows, key, k).Some? ==> rows[Find(rows, key, k).value] == Index(rows, key)[k]
    decreases |rows|
  {
    var f := Find(rows, key, k);
    if f.Some? {
      assert HasKey(rows, key, k);
      var n := |rows| - 1;
      var front := rows[..n];
      if f.value < n {
        FindIsIndex(front, key, k);
        assert front[f.value] == rows[f.value];
        var g := Find(front, key, k);
        assert g.Some? && front[g.value] == rows[g.value];
        assert g.value == f.value;
      } else {
        assert forall i :: 0 <= i < n ==> key(front[i]) == key(rows[i]);
      }
    }
  }

  function DeleteAt<T>(rows: seq<T>, i: nat): (r: seq<T>)
    requires i < |rows|
    ensures |r| == |rows| - 1
    ensures forall j :: 0 <= j < i ==> r[j] == rows[j]
    ensures forall j :: i <= j < |r| ==> r[j] == rows[j + 1]
  {
    rows[..i] + rows[i + 1..]
  }

  lemma IndexUpdate<T, K(!new)>(rows: seq<T>, key: T -> K, i: nat, row: T)
    requires Unique(rows, key) && i < |rows| && key(row) == key(rows[i])
    ensures Unique(rows[i := row], key)
    ensures Index(rows[i := row], key) == Index(rows, key)[key(row) := row]
  {
    var rows' := rows[i := row];
    assert forall j :: 0 <= j < |rows| ==> key(rows'[j]) == key(rows[j]);
    var m := Index(rows, key)[key(row) := row];
    forall j | 0 <= j < |rows'|
      ensures key(rows'[j]) in m && m[key(rows'[j])] == rows'[j]
    {
      IndexAt(rows, key, j);
      assert j == i || key(rows[j]) != key(rows[i]);
    }
    forall k | k in m
      ensures HasKey(rows', key, k)
    {
      var j :| 0 <= j < |rows| && (key(rows[j]) == k || (j == i && key(row) == k));
      assert key(rows'[j]) == k;
    }
    IndexIs(rows', key, m);
  }

  lemma UniqueDelete<T, K(!new)>(rows: seq<T>, key: T -> K, i: nat)
    requires Unique(rows, key) && i < |rows|
    ensures Unique(DeleteAt(rows, i), key)
    ensures forall j :: 0 <= j < |rows| - 1 ==> key(DeleteAt(rows, i)[j]) != key(rows[i])
  {
    var rows' := DeleteAt(rows, i);
    forall a, b | 0 <= a < b < |rows'|
      ensures key(rows'[a]) != key(rows'[b])
    {
      var a', b' := if a < i then a else a + 1, if b < i then b else b + 1;
      assert rows'[a] == rows[a'] && rows'[b] == rows[b'];
      assert key(rows[a']) != key(rows[b']);
    }
    forall j | 0 <= j < |rows'|
      ensures key(rows'[j]) != key(rows[i])
    {
      var j' := if j < i then j else j + 1;
      assert rows'[j] == rows[j'];
      assert key(rows[j']) != key(rows[i]);
    }
  }

  lemma IndexDelete<T, K(!new)>(rows: seq<T>, key: T -> K, i: nat)
    requires Unique(rows, key) && i < |rows|
    ensures Unique(DeleteAt(rows, i), key)
    ensures Index(DeleteAt(rows, i), key) == Index(rows, key) - {key(rows[i])}
  {
    hide Index, HasKey;
    var rows', m := DeleteAt(rows, i), Index(rows, key) - {key(rows[i])};
    UniqueDelete(rows, key, i);
    forall j | 0 <= j < |rows'|
      ensures key(rows'[j]) in m && m[key(rows'[j])] == rows'[j]
    {
      IndexAt(rows, key, if j < i then j else j + 1);
    }
    forall k | k in m
      ensures HasKey(rows', key, k)
    {
      KeySurvives(rows, key, i, k);
    }
    IndexIs(rows', key, m);
  }

  lemma KeySurvives<T, K(!new)>(rows: seq<T>, key: T -> K, i: nat, k: K)
    requires i < |rows| && HasKey(rows, key, k) && k != key(rows[i])
    ensures HasKey(DeleteAt(rows, i), key, k)
  {
    var j :| 0 <= j < |rows| && key(rows[j]) == k;
    assert DeleteAt(rows, i)[if j < i then j else j - 1] == rows[j];
  }

  /** The rows without the first one that carries the key. */
  function Without<T, K(==)>(rows: seq<T>, key: T -> K, k: K): seq<T> {
    match Find(rows, key, k)
    case None => rows
    case Some(i) => DeleteAt(rows, i)
  }

  lemma WithoutLaw<T, K(!new)>(rows: seq<T>, key: T -> K, k: K)
    requires Unique(rows, key)
    ensures Unique(Without(rows, key, k), key)
    ensures Index(Without(rows, key, k), key) == Index(rows, key) - {k}
  {
    FindIsIndex(rows, key, k);
    match Find(rows, key, k)
    case None =>
    case Some(i) => IndexDelete(rows, key, i);
  }

  /** Number of rows that satisfy `p`. */
  function Count<T>(rows: seq<T>, p: T -> bool): nat {
    if rows == [] then 0
    else Count(rows[..|rows| - 1], p) + if p(rows[|rows| - 1]) then 1 else 0
  }

  lemma CountAppend<T>(rows: seq<T>, p: T -> bool, row: T)
    ensures Count(rows + [row], p) == Count(rows, p) + if p(row) then 1 else 0
  {
    assert (rows + [row])[..|rows|] == rows;
  }

  lemma {:induction false} CountUpdate<T>(rows: seq<T>, p: T -> bool, i: nat, row: T)
    requires i < |rows|
    ensures Count(rows[i := row], p) ==
            Count(rows, p) - (if p(rows[i]) then 1 else 0) + (if p(row) then 1 else 0)
  {
    var n := |rows| - 1;
    if i < n {
      CountUpdate(rows[..n], p, i, row);
      assert rows[i := row][..n] == rows[..n][i := row];
    } else {
      assert rows[i := row][..n] == rows[..n];
    }
  }

  lemma {:induction false} CountDelete<T>(rows: seq<T>, p: T -> bool, i: nat)
    requires i < |rows|
    ensures Count(DeleteAt(rows, i), p) == Count(rows, p) - (if p(rows[i]) then 1 else 0)
  {
    var n := |rows| - 1;
    if i < n {
      CountDelete(rows[..n], p, i);
      assert DeleteAt(rows, i) == DeleteAt(rows[..n], i) + [rows[n]];
      CountAppend(DeleteAt(rows[..n], i), p, rows[n]);
    } else {
      assert DeleteAt(rows, i) == rows[..n];
    }
  }

  lemma {:induction false} CountPositive<T>(rows: seq<T>, p: T -> bool, i: nat)
    requires i < |rows| && p(rows[i])
    ensures Count(rows, p) > 0
  {
    var n := |rows| - 1;
    if i < n {
      CountPositive(rows[..n], p, i);
    }
  }

  lemma {:induction false} CountZero<T>(rows: seq<T>, p: T -> bool)
    requires forall i :: 0 <= i < |rows| ==> !p(rows[i])
    ensures Count(rows, p) == 0
  {
    if rows != [] {
      CountZero(rows[..|rows| - 1], p);
    }
  }
}
