/** The change log of a mailbox: its ids, and what folding it over an earlier state gives. */
module GmailHistory {
  import opened Tables
  import opened Gmail

  // ---------------------------------------------------------------- rows and ids

  /** The two rows of one label change share an id. */
  predicate SameChange(a: Row, b: Row) {
    a.kind == LabelAdded && b.kind == LabelRemoved && a.message == b.message && a.id == b.id
  }

  /** Ids ascend strictly, except that the two rows of one label change share theirs. */
  ghost predicate Ordered(rows: seq<Row>) {
    forall i, j :: 0 <= i < j < |rows| ==> rows[i].id < rows[j].id || (j == i + 1 && SameChange(rows[i], rows[j]))
  }

  ghost predicate IdsOk(b: Box) {
    && b.last >= 0
    && (forall i :: 0 <= i < |b.history| ==> 0 < b.history[i].id <= b.last)
    && (forall id :: id in b.messages ==> 0 < b.messages[id].historyId <= b.last && "" !in b.messages[id].labels)
    && Ordered(b.history)
  }

  /** The list of rows names every message once. */
  ghost predicate RowsOk(b: Box) {
    && (forall id :: id in b.rows <==> id in b.messages)
    && (forall i, j :: 0 <= i < j < |b.rows| ==> b.rows[i] != b.rows[j])
  }

  /** The id reported as current: the largest on any message or row, zero if there is none. */
  ghost predicate IsCurrent(b: Box, h: int) {
    && (forall i :: 0 <= i < |b.history| ==> b.history[i].id <= h)
    && (forall id :: id in b.messages ==> b.messages[id].historyId <= h)
    && (h == 0 || (exists i :: 0 <= i < |b.history| && b.history[i].id == h)
        || (exists id :: id in b.messages && b.messages[id].historyId == h))
  }

  lemma CurrentIsPast(b: Box, h: int)
    requires IdsOk(b) && IsCurrent(b, h)
    ensures 0 <= h <= b.last
  {
  }

  // ---------------------------------------------------------------- replaying

  /** What a client knows: which messages there are, and their labels. */
  type View = map<string, Labels>

  function Shown(b: Box): View {
    map id | id in b.messages :: b.messages[id].labels
  }

  function ReplayRow(v: View, r: Row): View {
    match r.kind
    case MessageAdded => v[r.message := {}]
    case MessageDeleted => v - {r.message}
    case LabelAdded => if r.message in v then v[r.message := v[r.message] + r.labels] else v
    case LabelRemoved => if r.message in v then v[r.message := v[r.message] - r.labels] else v
  }

  function Replay(v: View, rows: seq<Row>): View {
    if rows == [] then v else ReplayRow(Replay(v, rows[..|rows| - 1]), rows[|rows| - 1])
  }

  lemma ReplayAppend(v: View, rows: seq<Row>, r: Row)
    ensures Replay(v, rows + [r]) == ReplayRow(Replay(v, rows), r)
  {
    assert (rows + [r])[..|rows|] == rows;
  }

  /** The rows with an id above `h`, in order. */
  function After(rows: seq<Row>, h: int): seq<Row> {
    if rows == [] then []
    else After(rows[..|rows| - 1], h) + if rows[|rows| - 1].id > h then [rows[|rows| - 1]] else []
  }

  ghost predicate Mentioned(b: Box, id: string) {
    id in b.messages || exists i :: 0 <= i < |b.history| && b.history[i].message == id
  }

  /** All labels that the rows ever took from a message. */
  function TakenFrom(rows: seq<Row>, id: string): Labels {
    if rows == [] then {}
    else
      var r := rows[|rows| - 1];
      TakenFrom(rows[..|rows| - 1], id) + if r.kind == LabelRemoved && r.message == id then r.labels else {}
  }

  /** A message that arrives later, and the labels it is stored with. */
  datatype Newborn = Newborn(id: string, labels: Labels)

  /** A view kept up to date from a past state with the rows since then: it has exactly the messages there are, the
      labels of those that were there then, and of one that was not, the labels less those it was stored with and kept
      ever since. `n` rows were written and ids up to `base` given before. */
  datatype Past = Past(view: View, n: nat, base: int, newborn: Option<Newborn>)

  ghost predicate Follows(p: Past, b: Box) {
    && p.n <= |b.history| && p.base <= b.last
    && (forall i :: p.n <= i < |b.history| ==> b.history[i].id > p.base)
    && Agrees(p, Replay(p.view, b.history[p.n..]), b)
    && Grows(p, Replay(p.view, b.history[p.n..]), TakenFrom(b.history[p.n..], BornId(p)), b)
    && (forall id :: id in p.view ==> Mentioned(b, id))
  }

  ghost predicate Agrees(p: Past, v: View, b: Box) {
    v.Keys == b.messages.Keys && forall id :: id in p.view && id in b.messages ==> v[id] == b.messages[id].labels
  }

  function BornId(p: Past): string {
    if p.newborn.Some? then p.newborn.value.id else ""
  }

  /** The labels kept since the message was stored are on it, and are all that the view lacks. */
  ghost predicate Grows(p: Past, v: View, taken: Labels, b: Box) {
    p.newborn.Some? && p.newborn.value.id !in p.view && p.newborn.value.id in b.messages && p.newborn.value.id in v ==>
      var born := p.newborn.value;
      var kept := born.labels - taken;
      kept <= b.messages[born.id].labels && v[born.id] == b.messages[born.id].labels - kept
  }

  /** If the step stores the message, it stores it with the labels that were foretold. */
  ghost predicate Foretold(p: Past, id: string, labels: Labels) {
    p.newborn.Some? && p.newborn.value.id == id ==> p.newborn.value.labels == labels - {""}
  }

  ghost predicate EventForetold(p: Past, ev: Event) {
    ev.Create? ==> Foretold(p, ev.id, Wanted(ev))
  }

  ghost predicate Inv(p: Past, b: Box) {
    IdsOk(b) && RowsOk(b) && Follows(p, b)
  }

  // Steps that write no row.

  /** Steps that leave the messages and their labels alone. */
  lemma QuietStep(p: Past, b: Box, after: Box)
    requires Inv(p, b)
    requires after.history == b.history && after.rows == b.rows && after.last >= b.last
             && after.messages.Keys == b.messages.Keys
    requires forall id :: id in b.messages ==> after.messages[id].labels == b.messages[id].labels
    requires forall id :: id in b.messages ==> 0 < after.messages[id].historyId <= after.last
    ensures Inv(p, after)
  {
    forall id | id in p.view
      ensures Mentioned(after, id)
    {
      assert Mentioned(b, id);
    }
  }

  lemma SyncedInv(p: Past, b: Box, id: string, preferred: string, w: World)
    requires Inv(p, b)
    ensures Inv(p, Synced(b, id, preferred, w))
  {
    QuietStep(p, b, Synced(b, id, preferred, w));
  }

  lemma TickedInv(p: Past, b: Box, w: World)
    requires Inv(p, b)
    ensures Inv(p, Ticked(b, w))
  {
    QuietStep(p, b, Ticked(b, w));
  }

  // Steps that write rows.

  lemma AppendRow(rows: seq<Row>, r: Row)
    requires Ordered(rows)
    requires forall i :: 0 <= i < |rows| ==> rows[i].id < r.id || (i == |rows| - 1 && SameChange(rows[i], r))
    ensures Ordered(rows + [r])
  {
  }

  lemma RelabelledInv(p: Past, b: Box, id: string, labels: Labels, w: World)
    requires Inv(p, b) && id in b.messages && "" !in labels
    ensures Inv(p, Relabelled(b, id, labels, w))
  {
    var historyId, m := NextId(b, w), b.messages[id];
    var changed := Ticked(b, w).(messages := b.messages[id := m.(labels := labels - {""}, historyId := historyId)],
                                 history := b.history + LabelRows(historyId, id, m.labels, labels));
    RelabelledOrder(b, id, labels, w);
    RelabelledFollows(p, b, id, labels, w);
    SyncedInv(p, changed, id, "", w);
  }

  function Recorded(b: Box, id: string, labels: Labels, w: World): Box
    requires id in b.messages
  {
    var historyId, m := NextId(b, w), b.messages[id];
    Ticked(b, w).(messages := b.messages[id := m.(labels := labels - {""}, historyId := historyId)],
                  history := b.history + LabelRows(historyId, id, m.labels, labels))
  }

  lemma RelabelledOrder(b: Box, id: string, labels: Labels, w: World)
    requires IdsOk(b) && RowsOk(b) && id in b.messages && "" !in labels
    ensures IdsOk(Recorded(b, id, labels, w)) && RowsOk(Recorded(b, id, labels, w))
  {
    var h, m := NextId(b, w), b.messages[id];
    var added, removed := labels - m.labels, m.labels - labels;
    var after := Recorded(b, id, labels, w);
    var one := b.history + if added != {} then [Row(h, LabelAdded, id, added)] else [];
    if added != {} {
      AppendRow(b.history, Row(h, LabelAdded, id, added));
    }
    assert Ordered(one);
    if removed != {} {
      AppendRow(one, Row(h, LabelRemoved, id, removed));
      assert after.history == one + [Row(h, LabelRemoved, id, removed)];
    } else {
      assert after.history == one;
    }
  }

  lemma RelabelledFollows(p: Past, b: Box, id: string, labels: Labels, w: World)
    requires Inv(p, b) && id in b.messages && "" !in labels
    ensures Follows(p, Recorded(b, id, labels, w))
  {
    hide Replay, Ordered, TakenFrom, Grows, LabelRows, RowsOk;
    var h, before := NextId(b, w), b.messages[id].labels;
    var rows := LabelRows(h, id, before, labels);
    var after := Recorded(b, id, labels, w);
    var v, v' := Replay(p.view, b.history[p.n..]), Replay(p.view, after.history[p.n..]);
    assert after.history[p.n..] == b.history[p.n..] + rows;
    ReplayLabelRows(p.view, b.history[p.n..], h, id, before, labels);
    assert labels - {""} == labels;
    assert Agrees(p, v', after);
    LabelRowIds(h, id, before, labels);
    MentionsGrow(p, b, after);
    TakenLabelRows(b.history[p.n..], h, id, before, labels, BornId(p));
    RelabelledGrows(p, b, after, v, v', TakenFrom(b.history[p.n..], BornId(p)), id, labels);
  }

  lemma LabelRowIds(h: int, id: string, before: Labels, labels: Labels)
    ensures forall i :: 0 <= i < |LabelRows(h, id, before, labels)| ==> LabelRows(h, id, before, labels)[i].id == h
  {
  }

  lemma RelabelledGrows(p: Past, b: Box, after: Box, v: View, v': View, taken: Labels, id: string, labels: Labels)
    requires id in b.messages && Grows(p, v, taken, b) && v.Keys == b.messages.Keys
    requires var before := b.messages[id].labels;
             v' == v[id := v[id] + (labels - before) - (before - labels)] && id in after.messages
             && after.messages == b.messages[id := after.messages[id]] && after.messages[id].labels == labels
    ensures Grows(p, v', taken + if BornId(p) == id then b.messages[id].labels - labels else {}, after)
  {
  }

  lemma TakenLabelRows(rows: seq<Row>, h: int, id: string, before: Labels, labels: Labels, born: string)
    ensures TakenFrom(rows + LabelRows(h, id, before, labels), born)
         == TakenFrom(rows, born) + if born == id then before - labels else {}
  {
    var added, removed := labels - before, before - labels;
    var one := if added != {} then [Row(h, LabelAdded, id, added)] else [];
    var two := if removed != {} then [Row(h, LabelRemoved, id, removed)] else [];
    assert rows + LabelRows(h, id, before, labels) == (rows + one) + two;
    if added != {} {
      TakenAppend(rows, Row(h, LabelAdded, id, added), born);
    } else {
      assert rows + one == rows;
    }
    if removed != {} {
      TakenAppend(rows + one, Row(h, LabelRemoved, id, removed), born);
    } else {
      assert (rows + one) + two == rows + one;
    }
  }

  lemma TakenAppend(rows: seq<Row>, r: Row, id: string)
    ensures TakenFrom(rows + [r], id)
            == TakenFrom(rows, id) + if r.kind == LabelRemoved && r.message == id then r.labels else {}
  {
    assert (rows + [r])[..|rows|] == rows;
  }

  /** Nothing was taken from a message no row mentions. */
  lemma {:induction false} NothingTaken(rows: seq<Row>, id: string)
    requires forall i :: 0 <= i < |rows| ==> rows[i].message != id
    ensures TakenFrom(rows, id) == {}
  {
    if rows != [] {
      NothingTaken(rows[..|rows| - 1], id);
    }
  }

  lemma ReplayLabelRows(view: View, rows: seq<Row>, h: int, id: string, before: Labels, labels: Labels)
    requires id in Replay(view, rows)
    ensures var v, v' := Replay(view, rows), Replay(view, rows + LabelRows(h, id, before, labels));
            v'.Keys == v.Keys && v' == v[id := v[id] + (labels - before) - (before - labels)]
  {
    hide Replay;
    var v := Replay(view, rows);
    var added, removed := labels - before, before - labels;
    var one := if added != {} then [Row(h, LabelAdded, id, added)] else [];
    var two := if removed != {} then [Row(h, LabelRemoved, id, removed)] else [];
    assert rows + LabelRows(h, id, before, labels) == (rows + one) + two;
    if added != {} {
      ReplayAppend(view, rows, Row(h, LabelAdded, id, added));
    } else {
      assert rows + one == rows;
    }
    var mid := Replay(view, rows + one);
    assert added == {} ==> v[id] + added == v[id];
    assert mid == v[id := v[id] + added];
    assert removed == {} ==> mid[id] - removed == mid[id];
    if removed != {} {
      ReplayAppend(view, rows + one, Row(h, LabelRemoved, id, removed));
    } else {
      assert (rows + one) + two == rows + one;
    }
  }

  lemma MentionsGrow(p: Past, b: Box, after: Box)
    requires forall id :: id in p.view ==> Mentioned(b, id)
    requires b.history <= after.history && forall id :: id in b.messages ==> Mentioned(after, id)
    ensures forall id :: id in p.view ==> Mentioned(after, id)
  {
    forall id | id in p.view
      ensures Mentioned(after, id)
    {
      assert Mentioned(b, id);
      if id !in b.messages {
        var i :| 0 <= i < |b.history| && b.history[i].message == id;
        assert after.history[i] == b.history[i];
      }
    }
  }

  lemma ArrivedInv(p: Past, b: Box, id: string, m: Message, extras: Extras, w: World)
    requires Inv(p, b) && !Mentioned(b, id) && Foretold(p, id, m.labels)
    ensures Inv(p, Arrived(b, id, m, extras, w))
  {
    ArrivedFollows(p, b, id, m, extras, w);
    hide Follows, Ordered, Threaded;
    AppendRow(b.history, Row(NextId(b, w), MessageAdded, id, {}));
  }

  lemma ArrivedFollows(p: Past, b: Box, id: string, m: Message, extras: Extras, w: World)
    requires Inv(p, b) && !Mentioned(b, id) && Foretold(p, id, m.labels)
    ensures Follows(p, Arrived(b, id, m, extras, w))
  {
    hide Replay, Ordered, RowsOk, TakenFrom, Threaded;
    var r := Row(NextId(b, w), MessageAdded, id, {});
    var after := Arrived(b, id, m, extras, w);
    ReplayAppend(p.view, b.history[p.n..], r);
    TakenAppend(b.history[p.n..], r, BornId(p));
    NothingTaken(b.history[p.n..], id);
    assert after.history[p.n..] == b.history[p.n..] + [r];
    assert id !in p.view;
    assert Agrees(p, Replay(p.view, after.history[p.n..]), after);
    MentionsGrow(p, b, after);
  }

  lemma {:induction false} WithoutIdLaw(rows: seq<string>, id: string)
    ensures forall k :: k in WithoutId(rows, id) <==> k in rows && k != id
    ensures (forall i, j :: 0 <= i < j < |rows| ==> rows[i] != rows[j]) ==>
      forall i, j :: 0 <= i < j < |WithoutId(rows, id)| ==> WithoutId(rows, id)[i] != WithoutId(rows, id)[j]
  {
    if rows != [] {
      var n := |rows| - 1;
      var front := rows[..n];
      WithoutIdLaw(front, id);
      assert rows == front + [rows[n]];
      if forall i, j :: 0 <= i < j < |rows| ==> rows[i] != rows[j] {
        assert forall i :: 0 <= i < n ==> front[i] == rows[i];
        assert rows[n] !in front;
        assert forall i :: 0 <= i < |WithoutId(front, id)| ==> WithoutId(front, id)[i] in front;
      }
    }
  }

  lemma RemovedInv(p: Past, b: Box, id: string, w: World)
    requires Inv(p, b) && id in b.messages
    ensures Inv(p, Removed(b, id, w))
  {
    RemovedOrder(b, id, w);
    RemovedFollows(p, b, id, w);
  }

  lemma RemovedOrder(b: Box, id: string, w: World)
    requires IdsOk(b) && RowsOk(b) && id in b.messages
    ensures IdsOk(Removed(b, id, w)) && RowsOk(Removed(b, id, w))
  {
    hide KeepOne, WithoutId;
    AppendRow(b.history, Row(NextId(b, w), MessageDeleted, id, {}));
    WithoutIdLaw(b.rows, id);
  }

  lemma RemovedFollows(p: Past, b: Box, id: string, w: World)
    requires Inv(p, b) && id in b.messages
    ensures Follows(p, Removed(b, id, w))
  {
    hide Replay, Ordered, KeepOne, WithoutId, RowsOk, TakenFrom;
    TakenAppend(b.history[p.n..], Row(NextId(b, w), MessageDeleted, id, {}), BornId(p));
    var r := Row(NextId(b, w), MessageDeleted, id, {});
    var after := Removed(b, id, w);
    ReplayAppend(p.view, b.history[p.n..], r);
    assert after.history[p.n..] == b.history[p.n..] + [r];
    assert after.history[|b.history|] == r;
    assert Mentioned(after, id);
    assert Agrees(p, Replay(p.view, after.history[p.n..]), after);
    MentionsGrow(p, b, after);
  }

  // ---------------------------------------------------------------- handlers and runs

  lemma {:induction false} FilteredInv(p: Past, b: Box, id: string, filters: seq<Filter>, w: World)
    requires Inv(p, b) && id in b.messages
    ensures Inv(p, Filtered(b, id, filters, w))
    decreases |filters|
  {
    hide Inv, Relabelled;
    if filters != [] {
      var f, m := filters[0], b.messages[id];
      NoBlanks(p, b, id);
      if f.from != "" && w.hits(f.from, m.from) {
        var labels := Mutated(m.labels, f.add, f.remove);
        RelabelledInv(p, b, id, labels, w);
        RelabelledHas(b, id, labels, w);
        FilteredInv(p, Relabelled(b, id, labels, w), id, filters[1..], w);
      } else {
        FilteredInv(p, b, id, filters[1..], w);
      }
    }
  }

  lemma NoBlanks(p: Past, b: Box, id: string)
    requires Inv(p, b) && id in b.messages
    ensures "" !in b.messages[id].labels
  {
  }

  lemma RelabelledHas(b: Box, id: string, labels: Labels, w: World)
    requires id in b.messages
    ensures Relabelled(b, id, labels, w).messages.Keys == b.messages.Keys
  {
  }

  lemma CreatedInv(p: Past, b: Box, id: string, m: Message, extras: Extras, w: World)
    requires Inv(p, b) && !Mentioned(b, id) && Foretold(p, id, m.labels)
    ensures Inv(p, Created(b, id, m, extras, w))
  {
    hide Inv, Filtered, Synced;
    var arrived := Arrived(b, id, m, extras, w);
    ArrivedInv(p, b, id, m, extras, w);
    FilteredInv(p, arrived, id, arrived.filters, w);
    SyncedInv(p, Filtered(arrived, id, arrived.filters, w), id, "", w);
  }

  lemma {:induction false} MutatedAllInv(p: Past, b: Box, ids: seq<string>, how: Mutation, w: World)
    requires Inv(p, b)
    ensures Inv(p, MutatedAll(b, ids, how, w))
    decreases |ids|
  {
    hide Inv, Relabelled;
    if ids != [] {
      if ids[0] in b.messages {
        var labels := Mutate(b.messages[ids[0]].labels, how);
        NoBlanks(p, b, ids[0]);
        RelabelledInv(p, b, ids[0], labels, w);
        MutatedAllInv(p, Relabelled(b, ids[0], labels, w), ids[1..], how, w);
      } else {
        MutatedAllInv(p, b, ids[1..], how, w);
      }
    }
  }

  lemma {:induction false} RemovedAllInv(p: Past, b: Box, ids: seq<string>, w: World)
    requires Inv(p, b)
    ensures Inv(p, RemovedAll(b, ids, w))
    decreases |ids|
  {
    hide Inv, Removed;
    if ids != [] {
      if ids[0] in b.messages {
        RemovedInv(p, b, ids[0], w);
        RemovedAllInv(p, Removed(b, ids[0], w), ids[1..], w);
      } else {
        RemovedAllInv(p, b, ids[1..], w);
      }
    }
  }

  lemma UpdatedInv(p: Past, b: Box, d: Draft, edit: Edit, w: World)
    requires Inv(p, b) && d.message in b.messages && IsDraft(b.messages[d.message].labels)
    ensures Inv(p, DraftUpdated(b, d, edit, w))
  {
    hide Follows, Ordered, RowsOk;
    var m := b.messages[d.message];
    var attachments := if edit.files.None? then b.attachments
                       else Unattached(b.attachments, d.message) + Attached(d.message, edit.files.value);
    var changed := Ticked(b, w).(messages := b.messages[d.message := Edited(m, edit, NextId(b, w))],
                                 attachments := attachments);
    assert Mutated(m.labels, {"DRAFT"}, {}) == m.labels;
    QuietStep(p, b, changed);
    SyncedInv(p, changed, d.message, d.id, w);
  }

  lemma DraftsAside(p: Past, b: Box, drafts: seq<Draft>, filters: seq<Filter>, labels: Labels)
    requires Inv(p, b)
    ensures Inv(p, b.(drafts := drafts, filters := filters, labels := labels))
  {
    QuietStep(p, b, b.(drafts := drafts, filters := filters, labels := labels));
  }

  lemma EventKeepsInv(p: Past, b: Box, ev: Event, w: World)
    requires Inv(p, b) && Admissible(b, ev) && (Stores(b, ev) ==> EventForetold(p, ev))
    ensures Inv(p, Apply(b, ev, w))
  {
    hide Inv, Created, Synced, MutatedAll, RemovedAll, DraftUpdated, Relabelled, Removed, LiveDrafts, Without,
         FindDraft, DeleteAt;
    match ev
    case Create(id, m, asDraft, extras) =>
      var labels := Wanted(ev);
      if KnownLabels(b, labels) {
        CreatedInv(p, b, id, m.(labels := labels), extras, w);
        SyncedInv(p, Created(b, id, m.(labels := labels), extras, w), id, "", w);
      }
    case Modify(ids, how) => MutatedAllInv(p, b, ids, how, w);
    case Delete(ids) => RemovedAllInv(p, b, ids, w);
    case ModifyThread(thread, how) => MutatedAllInv(p, b, ThreadIds(b, b.rows, thread), how, w);
    case DeleteThread(thread) => RemovedAllInv(p, b, ThreadIds(b, b.rows, thread), w);
    case UpdateDraft(draftId, edit) =>
      LookupAside(p, b, draftId);
      var d := DraftLookup(b, draftId).1;
      if d.Some? {
        UpdatedInv(p, b, d.value, edit, w);
      }
    case SendDraft(draftId) =>
      LookupAside(p, b, draftId);
      var d := DraftLookup(b, draftId).1;
      if d.Some? {
        var i := FindDraft(b, draftId).value;
        var without := b.(drafts := DeleteAt(b.drafts, i));
        DraftsAside(p, b, without.drafts, b.filters, b.labels);
        NoBlanks(p, b, d.value.message);
        RelabelledInv(p, without, d.value.message, Mutated(b.messages[d.value.message].labels, {"SENT"}, {"DRAFT"}), w);
      }
    case DeleteDraft(draftId) =>
      LookupAside(p, b, draftId);
      var d := DraftLookup(b, draftId).1;
      if d.Some? {
        var i := FindDraft(b, draftId).value;
        var without := b.(drafts := DeleteAt(b.drafts, i));
        DraftsAside(p, b, without.drafts, b.filters, b.labels);
        RemovedInv(p, without, d.value.message, w);
      }
    case GetDraft(draftId) => LookupAside(p, b, draftId);
    case ListDrafts => DraftsAside(p, b, LiveDrafts(b, b.drafts), b.filters, b.labels);
    case CreateLabel(labelId) => DraftsAside(p, b, b.drafts, b.filters, b.labels + {labelId});
    case DeleteLabel(labelId) =>
      DraftsAside(p, b, b.drafts, b.filters, b.labels - {labelId});
      MutatedAllInv(p, b.(labels := b.labels - {labelId}), b.rows, Change({}, {labelId}), w);
    case CreateFilter(f) => DraftsAside(p, b, b.drafts, b.filters + [f], b.labels);
    case DeleteFilter(filterId) =>
      DraftsAside(p, b, b.drafts, Without(b.filters, (f: Filter) => f.id, filterId), b.labels);
    case Elsewhere => TickedInv(p, b, w);
  }

  lemma LookupAside(p: Past, b: Box, draftId: string)
    requires Inv(p, b)
    ensures Inv(p, DraftLookup(b, draftId).0)
    ensures var d := DraftLookup(b, draftId).1; d.Some? ==> FindDraft(b, draftId).Some?
  {
    hide Inv, FindDraft, DeleteAt;
    match FindDraft(b, draftId)
    case Some(i) => DraftsAside(p, b, DeleteAt(b.drafts, i), b.filters, b.labels);
    case None =>
  }

  /** Every step of the run stores the newborn message, if at all, with the labels foretold. */
  ghost predicate AllForetold(p: Past, b: Box, evs: seq<Event>, w: World)
    decreases |evs|
  {
    evs == [] || ((Stores(b, evs[0]) ==> EventForetold(p, evs[0])) && AllForetold(p, Apply(b, evs[0], w), evs[1..], w))
  }

  lemma {:induction false} RunKeepsInv(p: Past, b: Box, evs: seq<Event>, w: World)
    requires Inv(p, b) && AllAdmissible(b, evs, w) && AllForetold(p, b, evs, w)
    ensures Inv(p, Run(b, evs, w))
    decreases |evs|
  {
    hide Inv, Apply, Admissible;
    if evs != [] {
      EventKeepsInv(p, b, evs[0], w);
      RunKeepsInv(p, Apply(b, evs[0], w), evs[1..], w);
    }
  }

  // ---------------------------------------------------------------- the theorem

  /** A mailbox that handlers built from an empty one. */
  ghost predicate Sound(b: Box) {
    IdsOk(b) && RowsOk(b)
  }

  lemma NowFollows(b: Box)
    requires Sound(b)
    ensures Inv(Past(Shown(b), |b.history|, b.last, None), b)
  {
    assert b.history[|b.history|..] == [];
  }

  lemma {:induction false} NothingForetold(p: Past, b: Box, evs: seq<Event>, w: World)
    requires p.newborn.None?
    ensures AllForetold(p, b, evs, w)
    decreases |evs|
  {
    hide Apply, Stores;
    if evs != [] {
      NothingForetold(p, Apply(b, evs[0], w), evs[1..], w);
    }
  }

  lemma ReachableIsSound(evs: seq<Event>, w: World)
    requires AllAdmissible(EMPTY, evs, w)
    ensures Sound(Run(EMPTY, evs, w))
  {
    NowFollows(EMPTY);
    NothingForetold(Past(Shown(EMPTY), 0, 0, None), EMPTY, evs, w);
    RunKeepsInv(Past(Shown(EMPTY), 0, 0, None), EMPTY, evs, w);
  }

  lemma {:induction false} NoneAfter(rows: seq<Row>, h: int)
    requires forall i :: 0 <= i < |rows| ==> rows[i].id <= h
    ensures After(rows, h) == []
  {
    if rows != [] {
      NoneAfter(rows[..|rows| - 1], h);
    }
  }

  lemma {:induction false} AfterLater(older: seq<Row>, newer: seq<Row>, h: int)
    requires forall i :: 0 <= i < |older| ==> older[i].id <= h
    requires forall i :: 0 <= i < |newer| ==> newer[i].id > h
    ensures After(older + newer, h) == newer
    decreases |newer|
  {
    hide After;
    if newer == [] {
      NoneAfter(older, h);
      assert older + newer == older;
    } else {
      var last := |newer| - 1;
      var rows := older + newer;
      AfterNext(rows, h);
      AfterLater(older, newer[..last], h);
      assert rows[..|rows| - 1] == older + newer[..last];
      assert newer == newer[..last] + [newer[last]];
    }
  }

  lemma AfterIsSuffix(rows: seq<Row>, n: nat, h: int)
    requires n <= |rows|
    requires forall i :: 0 <= i < n ==> rows[i].id <= h
    requires forall i :: n <= i < |rows| ==> rows[i].id > h
    ensures After(rows, h) == rows[n..]
  {
    AfterLater(rows[..n], rows[n..], h);
    assert rows == rows[..n] + rows[n..];
  }

  lemma AfterNext(rows: seq<Row>, h: int)
    requires rows != []
    ensures After(rows, h) == After(rows[..|rows| - 1], h) + if rows[|rows| - 1].id > h then [rows[|rows| - 1]] else []
  {
  }

  /** The earlier rows stay in front of the later ones. */
  lemma {:induction false} RunKeepsRows(b: Box, evs: seq<Event>, w: World, n: nat)
    requires n == |b.history| && Sound(b) && AllAdmissible(b, evs, w)
    ensures b.history <= Run(b, evs, w).history
    decreases |evs|
  {
    if evs != [] {
      hide Apply, Admissible, Sound;
      EventKeepsRows(b, evs[0], w);
      SoundStep(b, evs[0], w);
      RunKeepsRows(Apply(b, evs[0], w), evs[1..], w, |Apply(b, evs[0], w).history|);
    }
  }

  lemma SoundStep(b: Box, ev: Event, w: World)
    requires Sound(b) && Admissible(b, ev)
    ensures Sound(Apply(b, ev, w))
  {
    hide Apply, Admissible;
    NowFollows(b);
    EventKeepsInv(Past(Shown(b), |b.history|, b.last, None), b, ev, w);
  }

  lemma {:induction false} MutatedAllRows(b: Box, ids: seq<string>, how: Mutation, w: World)
    ensures b.history <= MutatedAll(b, ids, how, w).history
    decreases |ids|
  {
    if ids != [] {
      MutatedAllRows(if ids[0] in b.messages then Relabelled(b, ids[0], Mutate(b.messages[ids[0]].labels, how), w)
                     else b, ids[1..], how, w);
    }
  }

  lemma {:induction false} RemovedAllRows(b: Box, ids: seq<string>, w: World)
    ensures b.history <= RemovedAll(b, ids, w).history
    decreases |ids|
  {
    if ids != [] {
      RemovedAllRows(if ids[0] in b.messages then Removed(b, ids[0], w) else b, ids[1..], w);
    }
  }

  lemma {:induction false} FilteredRows(b: Box, id: string, filters: seq<Filter>, w: World)
    requires id in b.messages
    ensures b.history <= Filtered(b, id, filters, w).history
    decreases |filters|
  {
    if filters != [] {
      var f, m := filters[0], b.messages[id];
      FilteredRows(if f.from != "" && w.hits(f.from, m.from)
                   then Relabelled(b, id, Mutated(m.labels, f.add, f.remove), w) else b,
                   id, filters[1..], w);
    }
  }

  /** No handler rewrites the history. */
  lemma EventKeepsRows(b: Box, ev: Event, w: World)
    ensures b.history <= Apply(b, ev, w).history
  {
    hide MutatedAll, RemovedAll, LiveDrafts, Without, FindDraft, SyncedDrafts, KeepOne;
    match ev
    case Create(id, m, asDraft, extras) =>
      var labels := Wanted(ev);
      var arrived := Arrived(b, id, m.(labels := labels), extras, w);
      FilteredRows(arrived, id, arrived.filters, w);
    case Modify(ids, how) => MutatedAllRows(b, ids, how, w);
    case Delete(ids) => RemovedAllRows(b, ids, w);
    case ModifyThread(thread, how) => MutatedAllRows(b, ThreadIds(b, b.rows, thread), how, w);
    case DeleteThread(thread) => RemovedAllRows(b, ThreadIds(b, b.rows, thread), w);
    case DeleteLabel(labelId) => MutatedAllRows(b.(labels := b.labels - {labelId}), b.rows, Change({}, {labelId}), w);
    case _ =>
  }

  lemma HistorySuffix(b: Box, h: int, evs: seq<Event>, w: World)
    requires Sound(b) && IsCurrent(b, h) && AllAdmissible(b, evs, w)
    ensures var now := Run(b, evs, w);
            |b.history| <= |now.history| && After(now.history, h) == now.history[|b.history|..]
  {
    var p := Past(Shown(b), |b.history|, b.last, None);
    var now := Run(b, evs, w);
    NowFollows(b);
    NothingForetold(p, b, evs, w);
    RunKeepsInv(p, b, evs, w);
    RunKeepsRows(b, evs, w, |b.history|);
    CurrentIsPast(b, h);
    assert forall i :: 0 <= i < p.n ==> now.history[i] == b.history[i];
    AfterIsSuffix(now.history, p.n, h);
  }

  /** A client that knew the mailbox when `h` was its current history id, and folds over it all rows above `h` in
      order, has exactly the messages there are now, and the labels of all it knew that are still there. */
  lemma HistoryReplays(b: Box, h: int, evs: seq<Event>, w: World)
    requires Sound(b) && IsCurrent(b, h) && AllAdmissible(b, evs, w)
    ensures var now := Run(b, evs, w);
            var v := Replay(Shown(b), After(now.history, h));
            v.Keys == now.messages.Keys
            && forall id :: id in b.messages && id in now.messages ==> v[id] == now.messages[id].labels
  {
    var p := Past(Shown(b), |b.history|, b.last, None);
    NowFollows(b);
    NothingForetold(p, b, evs, w);
    RunKeepsInv(p, b, evs, w);
    HistorySuffix(b, h, evs, w);
  }

  // ---------------------------------------------------------------- messages that arrived since

  /** The labels a message is stored with when it arrives during the run. */
  function StoredLabels(b: Box, evs: seq<Event>, id: string, w: World): Labels
    decreases |evs|
  {
    if evs == [] then {}
    else if Stores(b, evs[0]) && evs[0].id == id then Wanted(evs[0]) - {""}
    else StoredLabels(Apply(b, evs[0], w), evs[1..], id, w)
  }

  lemma MentionStays(b: Box, ev: Event, id: string, w: World)
    requires Sound(b) && Admissible(b, ev) && Mentioned(b, id)
    ensures Mentioned(Apply(b, ev, w), id)
  {
    hide Apply, Admissible;
    if id in b.messages {
      NowFollows(b);
      EventKeepsInv(Past(Shown(b), |b.history|, b.last, None), b, ev, w);
    } else {
      var i :| 0 <= i < |b.history| && b.history[i].message == id;
      EventKeepsRows(b, ev, w);
      assert Apply(b, ev, w).history[i] == b.history[i];
    }
  }

  lemma StoredIsMentioned(b: Box, ev: Event, w: World)
    requires Stores(b, ev)
    ensures Mentioned(Apply(b, ev, w), ev.id)
  {
    hide Synced, Threaded, KnownLabels;
    var arrived := Arrived(b, ev.id, ev.message.(labels := Wanted(ev)), ev.extras, w);
    var made := Filtered(arrived, ev.id, arrived.filters, w);
    SyncedMessages(made, ev.id, w);
    SyncedMessages(Synced(made, ev.id, "", w), ev.id, w);
  }

  lemma SyncedMessages(b: Box, id: string, w: World)
    ensures Synced(b, id, "", w).messages == b.messages
  {
  }

  /** A name that was used is not given out again. */
  lemma {:induction false} NeverAgain(p: Past, b: Box, evs: seq<Event>, id: string, w: World)
    requires Sound(b) && AllAdmissible(b, evs, w) && Mentioned(b, id) && p.newborn.Some? && p.newborn.value.id == id
    ensures AllForetold(p, b, evs, w)
    decreases |evs|
  {
    hide Apply, Sound, Stores;
    if evs != [] {
      MentionStays(b, evs[0], id, w);
      SoundStep(b, evs[0], w);
      NeverAgain(p, Apply(b, evs[0], w), evs[1..], id, w);
    }
  }

  lemma {:induction false} StoredForetold(p: Past, b: Box, evs: seq<Event>, id: string, w: World)
    requires Sound(b) && AllAdmissible(b, evs, w) && p.newborn == Some(Newborn(id, StoredLabels(b, evs, id, w)))
    ensures AllForetold(p, b, evs, w)
    decreases |evs|
  {
    hide Apply, Sound, Stores, Admissible;
    if evs != [] {
      SoundStep(b, evs[0], w);
      if Stores(b, evs[0]) && CreatesId(evs[0], id) {
        StoredIsMentioned(b, evs[0], w);
        NeverAgain(p, Apply(b, evs[0], w), evs[1..], id, w);
      } else {
        StoresCreates(b, evs[0]);
        StoredForetold(p, Apply(b, evs[0], w), evs[1..], id, w);
      }
    }
  }

  predicate CreatesId(ev: Event, id: string) {
    ev.Create? && ev.id == id
  }

  lemma StoresCreates(b: Box, ev: Event)
    ensures Stores(b, ev) ==> ev.Create?
  {
  }

  /** Of a message that arrived since `h`, the replayed labels lack exactly those it was stored with and that no row
      took away. So the rows tell its labels if and only if they took away every label it was stored with. */
  lemma NewMessageReplaysIff(b: Box, h: int, evs: seq<Event>, w: World, id: string)
    requires Sound(b) && IsCurrent(b, h) && AllAdmissible(b, evs, w)
    requires id in Run(b, evs, w).messages && id !in b.messages
    ensures var now := Run(b, evs, w);
            var rows := After(now.history, h);
            var v, stored, taken := Replay(Shown(b), rows), StoredLabels(b, evs, id, w), TakenFrom(rows, id);
            id in v && v[id] == now.messages[id].labels - (stored - taken)
            && (v[id] == now.messages[id].labels <==> stored <= taken)
  {
    var p := Past(Shown(b), |b.history|, b.last, Some(Newborn(id, StoredLabels(b, evs, id, w))));
    NowFollows(b);
    StartsUnborn(p, b);
    StoredForetold(p, b, evs, id, w);
    RunKeepsInv(p, b, evs, w);
    HistorySuffix(b, h, evs, w);
    var now := Run(b, evs, w);
    var kept := StoredLabels(b, evs, id, w) - TakenFrom(now.history[|b.history|..], id);
    assert kept <= now.messages[id].labels;
    if kept != {} {
      var l :| l in kept;
      assert l in now.messages[id].labels;
    }
  }

  lemma StartsUnborn(p: Past, b: Box)
    requires Sound(b) && p == Past(Shown(b), |b.history|, b.last, p.newborn)
    ensures Inv(p, b)
  {
    assert b.history[|b.history|..] == [];
  }

  /** The rows do not carry the labels a message arrives with. */
  lemma NewMessageLabelsUnknown(m: Message, w: World)
    requires m.labels == {"INBOX"}
    ensures var now := Run(EMPTY, [Create("m", m, false, Extras([], []))], w);
            var v := Replay(Shown(EMPTY), After(now.history, 0));
            "m" in v && "m" in now.messages && v["m"] == {} && now.messages["m"].labels == {"INBOX"}
  {
    var ev := Create("m", m, false, Extras([], []));
    assert [ev][1..] == [];
    var now := Apply(EMPTY, ev, w);
    assert Run(EMPTY, [ev], w) == Run(now, [], w) == now;
    var r := Row(NextId(EMPTY, w), MessageAdded, "m", {});
    assert now.history == [] + [r];
    assert now.history[..0] == [];
    assert After(now.history, 0) == [r];
    assert [r][..0] == [];
  }
}
