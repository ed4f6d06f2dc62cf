/** What comes with a message and what goes with it: its attachments and its thread. */
module GmailArrivals {
  import opened Tables
  import opened Gmail

  // ---------------------------------------------------------------- attachments

  /** Every attachment belongs to a live message. */
  ghost predicate AttachmentsLive(b: Box) {
    forall a :: a in b.attachments ==> a.message in b.messages
  }

  lemma {:induction false} UnattachedLaw(attachments: seq<Attachment>, id: string)
    ensures forall a :: a in Unattached(attachments, id) <==> a in attachments && a.message != id
  {
    if attachments != [] {
      var n := |attachments| - 1;
      UnattachedLaw(attachments[..n], id);
      assert attachments == attachments[..n] + [attachments[n]];
    }
  }

  lemma {:induction false} MutatedAllKeeps(b: Box, ids: seq<string>, how: Mutation, w: World)
    ensures var after := MutatedAll(b, ids, how, w);
            after.attachments == b.attachments && after.messages.Keys == b.messages.Keys
    decreases |ids|
  {
    if ids != [] {
      MutatedAllKeeps(if ids[0] in b.messages then Relabelled(b, ids[0], Mutate(b.messages[ids[0]].labels, how), w)
                      else b,
                      ids[1..], how, w);
    }
  }

  lemma {:induction false} FilteredKeeps(b: Box, id: string, filters: seq<Filter>, w: World)
    requires id in b.messages
    ensures Filtered(b, id, filters, w).attachments == b.attachments
    decreases |filters|
  {
    if filters != [] {
      var f, m := filters[0], b.messages[id];
      FilteredKeeps(if f.from != "" && w.hits(f.from, m.from)
                    then Relabelled(b, id, Mutated(m.labels, f.add, f.remove), w) else b,
                    id, filters[1..], w);
    }
  }

  lemma {:induction false} RemovedAllKeeps(b: Box, ids: seq<string>, w: World)
    requires AttachmentsLive(b)
    ensures AttachmentsLive(RemovedAll(b, ids, w))
    decreases |ids|
  {
    if ids != [] {
      UnattachedLaw(b.attachments, ids[0]);
      RemovedAllKeeps(if ids[0] in b.messages then Removed(b, ids[0], w) else b, ids[1..], w);
    }
  }

  /** A deleted message takes all its attachments and no other with it. */
  lemma RemovedTakesAttachments(b: Box, id: string, w: World)
    ensures forall a :: a in Removed(b, id, w).attachments <==> a in b.attachments && a.message != id
  {
    UnattachedLaw(b.attachments, id);
  }

  /** A draft updated from a raw message has exactly the attachments of that message; other messages keep theirs. */
  lemma UpdateReplacesAttachments(b: Box, d: Draft, edit: Edit, w: World)
    requires d.message in b.messages && edit.files.Some?
    ensures forall a :: a in DraftUpdated(b, d, edit, w).attachments
              <==> (a.message == d.message && a.id in edit.files.value)
                   || (a.message != d.message && a in b.attachments)
  {
    UnattachedLaw(b.attachments, d.message);
    var files := edit.files.value;
    forall a: Attachment
      ensures a in Attached(d.message, files) <==> a.message == d.message && a.id in files
    {
      if a.message == d.message && a.id in files {
        var i :| 0 <= i < |files| && files[i] == a.id;
        assert Attached(d.message, files)[i] == a;
      }
    }
  }

  lemma CreatedKeeps(b: Box, id: string, m: Message, extras: Extras, w: World)
    requires AttachmentsLive(b)
    ensures AttachmentsLive(Created(b, id, m, extras, w))
  {
    hide Filtered, Threaded;
    var arrived := Arrived(b, id, m, extras, w);
    FilteredKeeps(arrived, id, arrived.filters, w);
  }

  /** Every handler keeps attachments to live messages. */
  lemma EventKeepsAttachments(b: Box, ev: Event, w: World)
    requires AttachmentsLive(b)
    ensures AttachmentsLive(Apply(b, ev, w))
  {
    hide MutatedAll, RemovedAll, LiveDrafts, Without, SyncedDrafts, KeepOne, Created, Unattached, ThreadIds, Mutated;
    match ev
    case Create(id, m, asDraft, extras) =>
      var labels := Wanted(ev);
      CreatedKeeps(b, id, m.(labels := labels), extras, w);
    case Modify(ids, how) => MutatedAllKeeps(b, ids, how, w);
    case Delete(ids) => RemovedAllKeeps(b, ids, w);
    case ModifyThread(thread, how) => MutatedAllKeeps(b, ThreadIds(b, b.rows, thread), how, w);
    case DeleteThread(thread) => RemovedAllKeeps(b, ThreadIds(b, b.rows, thread), w);
    case DeleteLabel(labelId) => MutatedAllKeeps(b.(labels := b.labels - {labelId}), b.rows, Change({}, {labelId}), w);
    case UpdateDraft(draftId, _) =>
      var d := DraftLookup(b, draftId).1;
      if d.Some? {
        UnattachedLaw(b.attachments, d.value.message);
      }
    case DeleteDraft(draftId) =>
      var d := DraftLookup(b, draftId).1;
      if d.Some? {
        UnattachedLaw(b.attachments, d.value.message);
      }
    case _ =>
  }

  lemma {:induction false} RunKeepsAttachments(b: Box, evs: seq<Event>, w: World)
    requires AttachmentsLive(b)
    ensures AttachmentsLive(Run(b, evs, w))
    decreases |evs|
  {
    hide AttachmentsLive, Apply;
    if evs != [] {
      EventKeepsAttachments(b, evs[0], w);
      RunKeepsAttachments(Apply(b, evs[0], w), evs[1..], w);
    }
  }

  /** In every reachable mailbox attachments belong to live messages. */
  lemma ReachableAttachmentsLive(evs: seq<Event>, w: World)
    ensures AttachmentsLive(Run(EMPTY, evs, w))
  {
    RunKeepsAttachments(EMPTY, evs, w);
  }

  // ---------------------------------------------------------------- threads

  /** Row `j` is the first one of a message with this message id. */
  ghost predicate FirstWith(b: Box, messageId: string, j: int) {
    0 <= j < |b.rows| && b.rows[j] in b.messages && b.messages[b.rows[j]].messageId == messageId
    && forall k :: 0 <= k < j ==> b.rows[k] !in b.messages || b.messages[b.rows[k]].messageId != messageId
  }

  ghost predicate NoneWith(b: Box, messageId: string) {
    forall k :: 0 <= k < |b.rows| ==> b.rows[k] !in b.messages || b.messages[b.rows[k]].messageId != messageId
  }

  lemma {:induction false} ThreadOfLaw(b: Box, from: nat, messageId: string)
    requires from <= |b.rows|
    requires forall k :: 0 <= k < from ==> b.rows[k] !in b.messages || b.messages[b.rows[k]].messageId != messageId
    ensures var r := ThreadOf(b, b.rows[from..], messageId);
            if r.Some? then exists j :: FirstWith(b, messageId, j) && b.messages[b.rows[j]].thread == r.value
            else NoneWith(b, messageId)
    decreases |b.rows| - from
  {
    if from < |b.rows| {
      var rest := b.rows[from..];
      assert rest[0] == b.rows[from] && rest[1..] == b.rows[from + 1..];
      if b.rows[from] in b.messages && b.messages[b.rows[from]].messageId == messageId {
        assert FirstWith(b, messageId, from);
      } else {
        ThreadOfLaw(b, from + 1, messageId);
      }
    }
  }

  /** A message without a thread of its own joins the thread of the message its first known reply header names: the
      first such message in row order. */
  lemma {:induction false} ReplyJoinsThread(b: Box, replies: seq<string>, i: nat)
    requires i < |replies| && !NoneWith(b, replies[i]) && forall h :: 0 <= h < i ==> NoneWith(b, replies[h])
    ensures exists j :: FirstWith(b, replies[i], j) && b.messages[b.rows[j]].thread == ResolvedThread(b, replies)
    decreases i
  {
    ThreadOfLaw(b, 0, replies[0]);
    assert b.rows[0..] == b.rows;
    if i > 0 {
      assert NoneWith(b, replies[0]);
      assert ThreadOf(b, b.rows, replies[0]) == None;
      assert replies[1..][i - 1] == replies[i];
      forall h | 0 <= h < i - 1
        ensures NoneWith(b, replies[1..][h])
      {
        assert replies[1..][h] == replies[h + 1];
      }
      ReplyJoinsThread(b, replies[1..], i - 1);
    }
  }

  /** The messages of a thread come in order of time. */
  lemma {:induction false} ThreadSorted(b: Box, rows: seq<string>, thread: string)
    ensures ByTime(b, ThreadIds(b, rows, thread))
  {
    if rows != [] {
      var n := |rows| - 1;
      ThreadSorted(b, rows[..n], thread);
      if rows[n] in b.messages && b.messages[rows[n]].thread == thread {
        InsertSorted(b, ThreadIds(b, rows[..n], thread), rows[n]);
      }
    }
  }

  ghost predicate ByTime(b: Box, ids: seq<string>) {
    && (forall k :: k in ids ==> k in b.messages)
    && forall i, j :: 0 <= i < j < |ids| ==> b.messages[ids[i]].time <= b.messages[ids[j]].time
  }

  lemma {:induction false} InsertSorted(b: Box, sorted: seq<string>, id: string)
    requires ByTime(b, sorted) && id in b.messages
    ensures ByTime(b, InsertByTime(b, sorted, id))
    ensures forall k :: k in InsertByTime(b, sorted, id) ==> k == id || k in sorted
  {
    InsertKeeps(b, sorted, id);
    var n := |sorted| - 1;
    if sorted != [] && b.messages[sorted[n]].time > b.messages[id].time {
      var front := sorted[..n];
      assert forall i :: 0 <= i < n ==> front[i] == sorted[i];
      InsertSorted(b, front, id);
      var inserted := InsertByTime(b, front, id);
      forall i | 0 <= i < |inserted|
        ensures b.messages[inserted[i]].time <= b.messages[sorted[n]].time
      {
        assert inserted[i] in inserted;
        if inserted[i] != id {
          var k :| 0 <= k < n && front[k] == inserted[i];
        }
      }
    }
  }
}
