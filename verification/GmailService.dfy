/** The mailbox as its handlers run: collections changed in place. */
module GmailService {
  import opened Tables
  import opened Gmail
  import opened GmailHistory

  class Mailbox {
    const world: World
    var messages: map<string, Message>
    var rows: seq<string>
    var drafts: seq<Draft>
    var attachments: seq<Attachment>
    var history: seq<Row>
    var filters: seq<Filter>
    var labels: Labels
    var last: int
    var ticks: nat

    ghost function Value(): Box
      reads this
    {
      Box(messages, rows, drafts, attachments, history, filters, labels, last, ticks)
    }

    constructor (world: World)
      ensures this.world == world && Value() == EMPTY
    {
      this.world := world;
      messages, rows, drafts, attachments, history, filters, labels, last, ticks := map[], [], [], [], [], [], {}, 0, 0;
    }

    method GenerateHistoryID() returns (id: int)
      modifies this`last, this`ticks
      ensures id == NextId(old(Value()), world) && Value() == Ticked(old(Value()), world)
    {
      id := world.clock(ticks);
      if id <= last {
        id := last + 1;
      }
      last, ticks := id, ticks + 1;
    }

    /** Deletes a message's draft rows except the one at `keep`. */
    method DropDrafts(id: string, keep: int)
      modifies this`drafts
      ensures drafts == KeepOne(old(drafts), id, keep)
    {
      var all := drafts;
      drafts := [];
      for i := 0 to |all|
        invariant drafts == KeepOne(all[..i], id, keep)
      {
        assert all[..i + 1][..i] == all[..i];
        if all[i].message != id || i == keep {
          drafts := drafts + [all[i]];
        }
      }
      assert all[..|all|] == all;
    }

    method SyncDraftState(id: string, preferred: string)
      modifies this`drafts
      ensures Value() == Synced(old(Value()), id, preferred, world)
    {
      hide KeepOne, Kept;
      var labels := if id in messages then messages[id].labels else {};
      if !IsDraft(labels) {
        DropDrafts(id, -1);
        return;
      }
      var keep := Kept(drafts, id, preferred);
      if keep.Some? {
        DropDrafts(id, keep.value);
        return;
      }
      drafts := drafts + [Draft(if preferred != "" then preferred else world.name(ticks), id)];
    }

    method UpdateMessageLabels(id: string, after: Labels)
      requires id in messages
      modifies this
      ensures Value() == Relabelled(old(Value()), id, after, world)
    {
      hide SyncedDrafts;
      var m := messages[id];
      var added, removed := after - m.labels, m.labels - after;
      var historyId := GenerateHistoryID();
      messages := messages[id := m.(labels := after - {""}, historyId := historyId)];
      ghost var was := history;
      if added != {} {
        history := history + [Row(historyId, LabelAdded, id, added)];
      }
      if removed != {} {
        history := history + [Row(historyId, LabelRemoved, id, removed)];
      }
      assert history == was + LabelRows(historyId, id, m.labels, after);
      SyncDraftState(id, "");
    }

    /** The user's filters, in row order; each works on what the one before left. */
    method ApplyFilters(id: string)
      requires id in messages
      modifies this
      ensures Value() == Filtered(old(Value()), id, old(filters), world)
    {
      hide Relabelled, Mutated;
      assert filters[0..] == filters;
      var all := filters;
      for i := 0 to |all|
        invariant id in messages
        invariant Filtered(Value(), id, all[i..], world) == Filtered(old(Value()), id, all, world)
      {
        assert all[i..][0] == all[i] && all[i..][1..] == all[i + 1..];
        var f, m := all[i], messages[id];
        RelabelledHas(Value(), id, Mutated(m.labels, f.add, f.remove), world);
        if f.from != "" && world.hits(f.from, m.from) {
          UpdateMessageLabels(id, Mutated(m.labels, f.add, f.remove));
        }
      }
      assert all[|all|..] == [];
    }

    /** The thread of the first message that one of the reply headers names. */
    method ResolveThreadID(replies: seq<string>) returns (thread: string)
      ensures thread == ResolvedThread(Value(), replies)
    {
      assert replies[0..] == replies;
      for i := 0 to |replies|
        invariant ResolvedThread(Value(), replies[i..]) == ResolvedThread(Value(), replies)
      {
        assert replies[i..][0] == replies[i] && replies[i..][1..] == replies[i + 1..];
        assert rows[0..] == rows;
        for j := 0 to |rows|
          invariant ThreadOf(Value(), rows[j..], replies[i]) == ThreadOf(Value(), rows, replies[i])
        {
          assert rows[j..][0] == rows[j] && rows[j..][1..] == rows[j + 1..];
          if rows[j] in messages && messages[rows[j]].messageId == replies[i] {
            return messages[rows[j]].thread;
          }
        }
        assert rows[|rows|..] == [];
      }
      assert replies[|replies|..] == [];
      return "";
    }

    method AttachFiles(id: string, files: seq<string>)
      modifies this`attachments
      ensures attachments == old(attachments) + Attached(id, files)
    {
      for i := 0 to |files|
        invariant attachments == old(attachments) + Attached(id, files)[..i]
      {
        attachments := attachments + [Attachment(files[i], id)];
      }
      assert Attached(id, files)[..|files|] == Attached(id, files);
    }

    method DropAttachments(id: string)
      modifies this`attachments
      ensures attachments == Unattached(old(attachments), id)
    {
      var all := attachments;
      attachments := [];
      for i := 0 to |all|
        invariant attachments == Unattached(all[..i], id)
      {
        assert all[..i + 1][..i] == all[..i];
        if all[i].message != id {
          attachments := attachments + [all[i]];
        }
      }
      assert all[..|all|] == all;
    }

    method CreateStoredMessage(id: string, m: Message, extras: Extras)
      modifies this
      ensures Value() == Created(old(Value()), id, m, extras, world)
      ensures id in messages
    {
      hide Filtered, SyncedDrafts, ResolvedThread, Attached;
      AttachFiles(id, extras.files);
      var thread := m.thread;
      if thread == "" {
        thread := ResolveThreadID(extras.replies);
      }
      if thread == "" {
        thread := "thread_" + id;
      }
      SameThread(old(Value()), Value(), extras.replies);
      var historyId := GenerateHistoryID();
      messages := messages[id := m.(thread := thread, labels := m.labels - {""}, historyId := historyId)];
      rows := rows + [id];
      history := history + [Row(historyId, MessageAdded, id, {})];
      assert Value() == Arrived(old(Value()), id, m, extras, world);
      ApplyFilters(id);
      SyncDraftState(id, "");
    }

    method DeleteMessage(id: string)
      modifies this
      ensures Value() == Removed(old(Value()), id, world)
    {
      hide KeepOne, WithoutId, Unattached;
      var historyId := GenerateHistoryID();
      history := history + [Row(historyId, MessageDeleted, id, {})];
      messages := messages - {id};
      rows := WithoutId(rows, id);
      DropDrafts(id, -1);
      DropAttachments(id);
    }

    /** The largest id on any message and any row. */
    method CurrentHistoryID() returns (h: int)
      requires IdsOk(Value()) && RowsOk(Value())
      ensures IsCurrent(Value(), h)
    {
      h := 0;
      for i := 0 to |rows|
        invariant h >= 0 && forall j :: 0 <= j < i ==> messages[rows[j]].historyId <= h
        invariant h == 0 || exists id :: id in messages && messages[id].historyId == h
      {
        assert rows[i] in rows;
        if messages[rows[i]].historyId > h {
          h := messages[rows[i]].historyId;
        }
      }
      assert forall id :: id in messages ==> id in rows;
      for i := 0 to |history|
        invariant h >= 0 && forall id :: id in messages ==> messages[id].historyId <= h
        invariant forall j :: 0 <= j < i ==> history[j].id <= h
        invariant h == 0 || (exists id :: id in messages && messages[id].historyId == h)
                  || (exists j :: 0 <= j < |history| && history[j].id == h)
      {
        if history[i].id > h {
          h := history[i].id;
        }
      }
    }

    // ---------------------------------------------------------------- handlers

    method HandleCreate(id: string, m: Message, asDraft: bool, extras: Extras) returns (ok: bool)
      modifies this
      ensures Value() == Apply(old(Value()), Create(id, m, asDraft, extras), world)
      ensures ok ==> id in messages && (asDraft ==> exists i :: 0 <= i < |drafts| && drafts[i].message == id)
    {
      hide Created, SyncedDrafts, SYSTEM;
      var wanted := if asDraft then m.labels + {"DRAFT"} else m.labels;
      if !(wanted - {""} <= SYSTEM + labels) {
        return false;
      }
      CreateStoredMessage(id, m.(labels := wanted), extras);
      ok := true;
      if asDraft {
        SyncDraftState(id, "");
        ok := FirstDraft(drafts, id).Some?;
      }
    }

    /** One message, a batch, trashing or untrashing: the mutation on each message named that is there. */
    method HandleModify(ids: seq<string>, how: Mutation)
      modifies this
      ensures Value() == Apply(old(Value()), Modify(ids, how), world)
    {
      hide MutatedAll, SYSTEM;
      if how.Change? && !(how.add + how.remove - {""} <= SYSTEM + labels) {
        return;
      }
      MutateAll(ids, how);
    }

    method MutateAll(ids: seq<string>, how: Mutation)
      modifies this
      ensures Value() == MutatedAll(old(Value()), ids, how, world)
    {
      hide Relabelled, Mutate;
      assert ids[0..] == ids;
      for i := 0 to |ids|
        invariant MutatedAll(Value(), ids[i..], how, world) == MutatedAll(old(Value()), ids, how, world)
      {
        assert ids[i..][0] == ids[i] && ids[i..][1..] == ids[i + 1..];
        if ids[i] !in messages {
          continue;
        }
        UpdateMessageLabels(ids[i], Mutate(messages[ids[i]].labels, how));
      }
      assert ids[|ids|..] == [];
    }

    method HandleDelete(ids: seq<string>)
      modifies this
      ensures Value() == Apply(old(Value()), Delete(ids), world)
    {
      hide Removed;
      assert ids[0..] == ids;
      for i := 0 to |ids|
        invariant RemovedAll(Value(), ids[i..], world) == RemovedAll(old(Value()), ids, world)
      {
        assert ids[i..][0] == ids[i] && ids[i..][1..] == ids[i + 1..];
        if ids[i] in messages {
          DeleteMessage(ids[i]);
        }
      }
      assert ids[|ids|..] == [];
    }

    /** The messages of the thread, sorted by time; messages of one time keep their row order. */
    method ThreadMessages(thread: string) returns (ids: seq<string>)
      ensures ids == ThreadIds(Value(), rows, thread)
    {
      hide InsertByTime;
      ids := [];
      for i := 0 to |rows|
        invariant ids == ThreadIds(Value(), rows[..i], thread)
      {
        assert rows[..i + 1][..i] == rows[..i];
        if rows[i] in messages && messages[rows[i]].thread == thread {
          ids := Inserted(ids, rows[i]);
        }
      }
      assert rows[..|rows|] == rows;
    }

    /** One step of a stable sort by time. */
    method Inserted(sorted: seq<string>, id: string) returns (r: seq<string>)
      requires id in messages && forall k :: k in sorted ==> k in messages
      ensures r == InsertByTime(Value(), sorted, id)
    {
      var n := |sorted|;
      assert sorted[..n] == sorted && sorted == sorted + [];
      while n > 0 && messages[sorted[n - 1]].time > messages[id].time
        invariant 0 <= n <= |sorted|
        invariant InsertByTime(Value(), sorted, id) == InsertByTime(Value(), sorted[..n], id) + sorted[n..]
      {
        InsertStep(Value(), sorted, n, id);
        n := n - 1;
      }
      r := sorted[..n] + [id] + sorted[n..];
    }

    method HandleModifyThread(thread: string, how: Mutation) returns (found: bool)
      modifies this
      ensures Value() == Apply(old(Value()), ModifyThread(thread, how), world)
      ensures !found ==> Value() == old(Value())
    {
      hide MutatedAll, SYSTEM, ThreadIds;
      var ids := ThreadMessages(thread);
      if ids == [] {
        NothingToMutate(Value(), how, world);
        return false;
      }
      if how.Change? && !(how.add + how.remove - {""} <= SYSTEM + labels) {
        return false;
      }
      MutateAll(ids, how);
      return true;
    }

    method HandleDeleteThread(thread: string)
      modifies this
      ensures Value() == Apply(old(Value()), DeleteThread(thread), world)
    {
      hide RemovedAll, ThreadIds;
      var ids := ThreadMessages(thread);
      HandleDelete(ids);
    }

    /** The draft of that id; a row whose message is no draft is dropped on the way. */
    method GetDraftAndMessage(draftId: string) returns (d: Option<Draft>)
      modifies this`drafts
      ensures (Value(), d) == DraftLookup(old(Value()), draftId)
      ensures d.Some? ==>
        d.value.message in messages && IsDraft(messages[d.value.message].labels) && drafts == old(drafts)
    {
      var i := Find(drafts, (d: Draft) => d.id, draftId);
      if i.None? {
        return None;
      }
      var draft := drafts[i.value];
      var labels := if draft.message in messages then messages[draft.message].labels else {};
      if !IsDraft(labels) {
        drafts := DeleteAt(drafts, i.value);
        return None;
      }
      return Some(draft);
    }

    method HandleGetDraft(draftId: string) returns (d: Option<Draft>)
      modifies this
      ensures Value() == Apply(old(Value()), GetDraft(draftId), world)
    {
      d := GetDraftAndMessage(draftId);
    }

    method HandleUpdateDraft(draftId: string, edit: Edit) returns (found: bool)
      modifies this
      ensures Value() == Apply(old(Value()), UpdateDraft(draftId, edit), world)
    {
      hide SyncedDrafts, FindDraft, DeleteAt, Unattached, Attached, Mutated;
      var d := GetDraftAndMessage(draftId);
      if d.None? {
        return false;
      }
      var id := d.value.message;
      var m := messages[id];
      var historyId := GenerateHistoryID();
      messages := messages[id := Edited(m, edit, historyId)];
      if edit.files.Some? {
        DropAttachments(id);
        AttachFiles(id, edit.files.value);
      }
      SyncDraftState(id, d.value.id);
      return true;
    }

    method HandleSendDraft(draftId: string) returns (found: bool)
      modifies this
      ensures Value() == Apply(old(Value()), SendDraft(draftId), world)
    {
      hide Relabelled, Mutated, DeleteAt;
      var d := GetDraftAndMessage(draftId);
      if d.None? {
        return false;
      }
      DropDraftRow(draftId);
      UpdateMessageLabels(d.value.message, Mutated(messages[d.value.message].labels, {"SENT"}, {"DRAFT"}));
      return true;
    }

    method HandleDeleteDraft(draftId: string) returns (found: bool)
      modifies this
      ensures Value() == Apply(old(Value()), DeleteDraft(draftId), world)
    {
      hide Removed, DeleteAt;
      var d := GetDraftAndMessage(draftId);
      if d.None? {
        return false;
      }
      DropDraftRow(draftId);
      DeleteMessage(d.value.message);
      return true;
    }

    method DropDraftRow(draftId: string)
      requires FindDraft(Value(), draftId).Some?
      modifies this`drafts
      ensures drafts == DeleteAt(old(drafts), FindDraft(old(Value()), draftId).value)
    {
      var i := Find(drafts, (d: Draft) => d.id, draftId);
      drafts := DeleteAt(drafts, i.value);
    }

    method HandleListDrafts() returns (listed: seq<Draft>)
      modifies this`drafts
      ensures Value() == Apply(old(Value()), ListDrafts, world) && listed == drafts
    {
      var all := drafts;
      ghost var was := Value();
      drafts := [];
      for i := 0 to |all|
        invariant drafts == LiveDrafts(was, all[..i])
      {
        assert all[..i + 1][..i] == all[..i];
        var labels := if all[i].message in messages then messages[all[i].message].labels else {};
        if IsDraft(labels) {
          drafts := drafts + [all[i]];
        }
      }
      assert all[..|all|] == all;
      listed := drafts;
    }

    method HandleDeleteLabel(labelId: string) returns (ok: bool)
      modifies this
      ensures Value() == Apply(old(Value()), DeleteLabel(labelId), world)
    {
      hide MutatedAll, SYSTEM;
      if labelId !in labels || labelId in SYSTEM {
        return false;
      }
      labels := labels - {labelId};
      MutateAll(rows, Change({}, {labelId}));
      return true;
    }

    method HandleCreateFilter(f: Filter) returns (ok: bool)
      modifies this`filters
      ensures Value() == Apply(old(Value()), CreateFilter(f), world)
      ensures ok <==> filters == old(filters) + [f]
    {
      hide SYSTEM;
      if f.add + f.remove == {} || !(f.add + f.remove - {""} <= SYSTEM + labels) {
        return false;
      }
      for i := 0 to |filters|
        invariant forall j :: 0 <= j < i ==>
          !(filters[j].from == f.from && filters[j].add - {""} == f.add - {""}
            && filters[j].remove - {""} == f.remove - {""})
      {
        var g := filters[i];
        if g.from == f.from && g.add - {""} == f.add - {""} && g.remove - {""} == f.remove - {""} {
          assert g in filters;
          return false;
        }
      }
      filters := filters + [f];
      return true;
    }

    method HandleDeleteFilter(filterId: string) returns (found: bool)
      modifies this`filters
      ensures Value() == Apply(old(Value()), DeleteFilter(filterId), world)
    {
      var i := Find(filters, (f: Filter) => f.id, filterId);
      if i.None? {
        return false;
      }
      filters := DeleteAt(filters, i.value);
      return true;
    }
  }

  lemma NothingToMutate(b: Box, how: Mutation, w: World)
    ensures MutatedAll(b, [], how, w) == b
  {
  }

  lemma InsertStep(b: Box, sorted: seq<string>, n: nat, id: string)
    requires 0 < n <= |sorted| && id in b.messages && forall k :: k in sorted ==> k in b.messages
    requires b.messages[sorted[n - 1]].time > b.messages[id].time
    ensures InsertByTime(b, sorted[..n], id) + sorted[n..] == InsertByTime(b, sorted[..n - 1], id) + sorted[n - 1..]
  {
    assert sorted[..n][..n - 1] == sorted[..n - 1] && sorted[..n][n - 1] == sorted[n - 1];
    assert [sorted[n - 1]] + sorted[n..] == sorted[n - 1..];
  }

  /** Attachments have no part in finding a thread. */
  lemma {:induction false} SameThread(b: Box, after: Box, replies: seq<string>)
    requires after.messages == b.messages && after.rows == b.rows
    ensures ResolvedThread(after, replies) == ResolvedThread(b, replies)
  {
    if replies != [] {
      SameThreadOf(b, after, b.rows, replies[0]);
      SameThread(b, after, replies[1..]);
    }
  }

  lemma {:induction false} SameThreadOf(b: Box, after: Box, rows: seq<string>, messageId: string)
    requires after.messages == b.messages
    ensures ThreadOf(after, rows, messageId) == ThreadOf(b, rows, messageId)
  {
    if rows != [] {
      SameThreadOf(b, after, rows[1..], messageId);
    }
  }
}
