/** The history listing: rows grouped by id, and given out in pages of ids. */
module GmailListing {
  import opened Gmail
  import opened GmailHistory
  import opened GoNumbers
  import opened Paging

  /** The rows above `start` that pass the type and label filters, in order. */
  function Selected(rows: seq<Row>, start: int, keep: Row -> bool): seq<Row> {
    if rows == [] then []
    else
      var n := |rows| - 1;
      Selected(rows[..n], start, keep) + if rows[n].id > start && keep(rows[n]) then [rows[n]] else []
  }

  lemma {:induction false} NoFilterIsAfter(rows: seq<Row>, start: int)
    ensures Selected(rows, start, (r: Row) => true) == After(rows, start)
  {
    if rows != [] {
      NoFilterIsAfter(rows[..|rows| - 1], start);
    }
  }

  /** A missing group is empty, as in a Go map. */
  function Group(groups: map<int, seq<Row>>, id: int): seq<Row> {
    if id in groups then groups[id] else []
  }

  function Flatten(order: seq<int>, groups: map<int, seq<Row>>): seq<Row>
  {
    if order == [] then []
    else
      var n := |order| - 1;
      Flatten(order[..n], groups) + Group(groups, order[n])
  }

  ghost predicate StrictlyAscending(order: seq<int>) {
    forall i, j :: 0 <= i < j < |order| ==> order[i] < order[j]
  }

  lemma {:induction false} FlattenElsewhere(order: seq<int>, groups: map<int, seq<Row>>, id: int, rows: seq<Row>)
    requires id !in order
    ensures Flatten(order, groups[id := rows]) == Flatten(order, groups)
  {
    if order != [] {
      var n := |order| - 1;
      assert order == order[..n] + [order[n]];
      FlattenElsewhere(order[..n], groups, id, rows);
    }
  }

  lemma FlattenNew(order: seq<int>, groups: map<int, seq<Row>>, id: int, row: Row)
    requires id !in order
    ensures Flatten(order + [id], groups[id := [row]]) == Flatten(order, groups) + [row]
  {
    FlattenElsewhere(order, groups, id, [row]);
    assert (order + [id])[..|order|] == order;
  }

  lemma FlattenLast(order: seq<int>, groups: map<int, seq<Row>>, row: Row)
    requires order != [] && order[|order| - 1] !in order[..|order| - 1]
    ensures var id := order[|order| - 1];
            Flatten(order, groups[id := Group(groups, id) + [row]]) == Flatten(order, groups) + [row]
  {
    var n := |order| - 1;
    var front, id := order[..n], order[n];
    assert order == front + [id];
    FlattenElsewhere(front, groups, id, Group(groups, id) + [row]);
    assert Flatten(front, groups) + (Group(groups, id) + [row]) == Flatten(front, groups) + Group(groups, id) + [row];
  }

  /** The grouping loop: groups of one id each, ids strictly ascending, and together exactly the selected rows in
      order. */
  method GroupRows(rows: seq<Row>, start: int, keep: Row -> bool) returns (order: seq<int>, groups: map<int, seq<Row>>)
    requires Ordered(rows)
    ensures StrictlyAscending(order) && groups.Keys == set id | id in order
    ensures forall id, r :: id in groups && r in groups[id] ==> r.id == id
    ensures forall id :: id in groups ==> groups[id] != []
    ensures Flatten(order, groups) == Selected(rows, start, keep)
  {
    hide Flatten, Selected;
    order, groups := [], map[];
    NothingYet(start, keep, groups);
    for i := 0 to |rows|
      invariant StrictlyAscending(order) && groups.Keys == set id | id in order
      invariant forall id, r :: id in groups && r in groups[id] ==> r.id == id
      invariant forall id :: id in groups ==> groups[id] != []
      invariant order != [] ==> i > 0 && order[|order| - 1] <= rows[i - 1].id
      invariant Flatten(order, groups) == Selected(rows[..i], start, keep)
    {
      var row := rows[i];
      SelectedNext(rows, i, start, keep);
      if !(row.id > start) || !keep(row) {
        continue;
      }
      if row.id !in groups {
        FlattenNew(order, groups, row.id, row);
        order := order + [row.id];
        groups := groups[row.id := [row]];
      } else {
        var k :| 0 <= k < |order| && order[k] == row.id;
        assert k == |order| - 1;
        FlattenLast(order, groups, row);
        groups := groups[row.id := groups[row.id] + [row]];
      }
    }
    assert rows[..|rows|] == rows;
  }

  lemma NothingYet(start: int, keep: Row -> bool, groups: map<int, seq<Row>>)
    ensures Flatten([], groups) == [] == Selected([], start, keep)
  {
  }

  lemma SelectedNext(rows: seq<Row>, i: nat, start: int, keep: Row -> bool)
    requires i < |rows|
    ensures Selected(rows[..i + 1], start, keep)
         == Selected(rows[..i], start, keep) + if rows[i].id > start && keep(rows[i]) then [rows[i]] else []
  {
    assert rows[..i + 1][..i] == rows[..i];
  }

  /** Groups of consecutive pages of ids, put together, are the groups of all ids. */
  lemma {:induction false} FlattenPages(pages: seq<seq<int>>, groups: map<int, seq<Row>>)
    ensures Flatten(Concat(pages), groups) == FlattenAll(pages, groups)
    decreases |pages|
  {
    if pages != [] {
      var rest := Concat(pages[1..]);
      FlattenPages(pages[1..], groups);
      FlattenJoins(pages[0], rest, groups);
    }
  }

  function FlattenAll(pages: seq<seq<int>>, groups: map<int, seq<Row>>): seq<Row>
  {
    if pages == [] then []
    else Flatten(pages[0], groups) + FlattenAll(pages[1..], groups)
  }

  lemma {:induction false} FlattenJoins(a: seq<int>, b: seq<int>, groups: map<int, seq<Row>>)
    ensures Flatten(a + b, groups) == Flatten(a, groups) + Flatten(b, groups)
    decreases |b|
  {
    if b == [] {
      assert a + b == a;
    } else {
      var n := |b| - 1;
      assert b == b[..n] + [b[n]];
      assert a + b == (a + b[..n]) + [b[n]] && (a + b)[..|a + b| - 1] == a + b[..n];
      FlattenJoins(a, b[..n], groups);
      assert Flatten(a, groups) + Flatten(b[..n], groups) + Group(groups, b[n])
        == Flatten(a, groups) + (Flatten(b[..n], groups) + Group(groups, b[n]));
    }
  }

  /** A client that reads the current id, waits, and then walks the pages of the listing from that id replays the
      mailbox: the rows of all pages in order bring what it knew up to date. */
  lemma PagesReplay(b: Box, h: int, evs: seq<Event>, w: World, order: seq<int>, groups: map<int, seq<Row>>,
                    limit: Int64)
    requires Sound(b) && IsCurrent(b, h) && AllAdmissible(b, evs, w)
    requires Flatten(order, groups) == Selected(Run(b, evs, w).history, h, (r: Row) => true)
    requires 0 < limit && |order| + limit <= INT64_MAX
    ensures Concat(Walk(order, 0, limit)) == order
    ensures var now, v := Run(b, evs, w), Replay(Shown(b), FlattenAll(Walk(order, 0, limit), groups));
            v.Keys == now.messages.Keys
            && forall id :: id in b.messages && id in now.messages ==> v[id] == now.messages[id].labels
  {
    PagesPartition(order, limit);
    FlattenPages(Walk(order, 0, limit), groups);
    NoFilterIsAfter(Run(b, evs, w).history, h);
    HistoryReplays(b, h, evs, w);
  }
}
