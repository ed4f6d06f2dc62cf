/** What every run of the mailbox keeps in its drafts: they follow labels. */
module GmailLaws {
  import opened Tables
  import opened Gmail

  // ---------------------------------------------------------------- drafts follow labels

  /** A message that is a draft has one draft row; no other id has any. */
  ghost predicate DraftsOkFor(b: Box, id: string) {
    |DraftsOf(b.drafts, id)| == if IsDraft(LabelsOf(b, id)) then 1 else 0
  }

  ghost predicate DraftsOk(b: Box) {
    forall id :: DraftsOkFor(b, id)
  }

  ghost predicate DraftsOkBut(b: Box, but: string) {
    forall id :: id != but ==> DraftsOkFor(b, id)
  }

  lemma {:induction false} DraftsOfNone(drafts: seq<Draft>, id: string)
    ensures DraftsOf(drafts, id) == [] <==> forall i :: 0 <= i < |drafts| ==> drafts[i].message != id
  {
    if drafts != [] {
      var front := drafts[..|drafts| - 1];
      DraftsOfNone(front, id);
      assert forall i :: 0 <= i < |front| ==> front[i] == drafts[i];
    }
  }

  lemma {:induction false} KeepOneLaw(drafts: seq<Draft>, id: string, keep: int, other: string)
    requires 0 <= keep < |drafts| ==> drafts[keep].message == id
    ensures other != id ==> DraftsOf(KeepOne(drafts, id, keep), other) == DraftsOf(drafts, other)
    ensures DraftsOf(KeepOne(drafts, id, keep), id) == if 0 <= keep < |drafts| then [drafts[keep]] else []
  {
    if drafts != [] {
      hide DraftsOf;
      var n := |drafts| - 1;
      var front, d := drafts[..n], drafts[n];
      var kept := KeepOne(front, id, keep);
      KeepOneLaw(front, id, keep, other);
      assert drafts == front + [d];
      DraftsOfAppend(front, d, other);
      DraftsOfAppend(kept, d, other);
      DraftsOfAppend(kept, d, id);
      assert kept + [] == kept;
      assert DraftsOf(front, other) + [] == DraftsOf(front, other) && DraftsOf(kept, id) + [] == DraftsOf(kept, id);
    } else {
      NoDrafts(id);
    }
  }

  lemma NoDrafts(id: string)
    ensures DraftsOf([], id) == []
  {
  }

  lemma DraftsOfAppend(drafts: seq<Draft>, d: Draft, id: string)
    ensures DraftsOf(drafts + [d], id) == DraftsOf(drafts, id) + if d.message == id then [d] else []
  {
    assert (drafts + [d])[..|drafts|] == drafts;
  }

  /** Whatever the rows were, synchronising leaves one draft for a draft message, none for another, and the rest
      alone. */
  lemma SyncedDraftsLaw(drafts: seq<Draft>, id: string, labels: Labels, preferred: string, unused: string,
                        other: string)
    ensures var after := SyncedDrafts(drafts, id, labels, preferred, unused);
            (other != id ==> DraftsOf(after, other) == DraftsOf(drafts, other))
            && |DraftsOf(after, id)| == if IsDraft(labels) then 1 else 0
  {
    hide DraftsOf, KeepOne, Find;
    if !IsDraft(labels) {
      KeepOneLaw(drafts, id, -1, other);
    } else {
      match Kept(drafts, id, preferred)
      case Some(keep) =>
        KeptIsOfMessage(drafts, id, preferred);
        KeepOneLaw(drafts, id, keep, other);
      case None =>
        var d := Draft(if preferred != "" then preferred else unused, id);
        DraftsOfAppend(drafts, d, other);
        DraftsOfAppend(drafts, d, id);
        DraftsOfNone(drafts, id);
    }
  }

  lemma KeptIsOfMessage(drafts: seq<Draft>, id: string, preferred: string)
    ensures var k := Kept(drafts, id, preferred); k.Some? ==> k.value < |drafts| && drafts[k.value].message == id
  {
  }

  lemma SyncedOk(b: Box, id: string, preferred: string, w: World)
    requires DraftsOkBut(b, id)
    ensures DraftsOk(Synced(b, id, preferred, w))
  {
    hide DraftsOf, SyncedDrafts;
    var after := Synced(b, id, preferred, w);
    forall other
      ensures DraftsOkFor(after, other)
    {
      SyncedDraftsLaw(b.drafts, id, LabelsOf(b, id), preferred, w.name(b.ticks), other);
      assert other != id ==> DraftsOkFor(b, other);
    }
  }

  /** Changes to one message's labels put only its own drafts at risk. */
  lemma OthersKeepDrafts(b: Box, after: Box, id: string)
    requires DraftsOkBut(b, id) && after.drafts == b.drafts
    requires forall other :: other != id ==> LabelsOf(after, other) == LabelsOf(b, other)
    ensures DraftsOkBut(after, id)
  {
    forall other | other != id
      ensures DraftsOkFor(after, other)
    {
      assert DraftsOkFor(b, other);
    }
  }

  lemma RelabelledDrafts(b: Box, id: string, labels: Labels, w: World)
    requires id in b.messages && DraftsOkBut(b, id)
    ensures DraftsOk(Relabelled(b, id, labels, w))
  {
    hide Synced, DraftsOkBut, DraftsOk;
    var historyId, m := NextId(b, w), b.messages[id];
    var changed := Ticked(b, w).(messages := b.messages[id := m.(labels := labels - {""}, historyId := historyId)],
                                 history := b.history + LabelRows(historyId, id, m.labels, labels));
    OthersKeepDrafts(b, changed, id);
    SyncedOk(changed, id, "", w);
  }

  lemma DraftsOkWeakens(b: Box, id: string)
    requires DraftsOk(b)
    ensures DraftsOkBut(b, id)
  {
  }

  lemma {:induction false} FilteredDrafts(b: Box, id: string, filters: seq<Filter>, w: World)
    requires id in b.messages && DraftsOkBut(b, id)
    ensures DraftsOkBut(Filtered(b, id, filters, w), id)
    decreases |filters|
  {
    hide DraftsOkBut, DraftsOk, Relabelled;
    if filters != [] {
      var f, m := filters[0], b.messages[id];
      if f.from != "" && w.hits(f.from, m.from) {
        var next := Relabelled(b, id, Mutated(m.labels, f.add, f.remove), w);
        RelabelledDrafts(b, id, Mutated(m.labels, f.add, f.remove), w);
        DraftsOkWeakens(next, id);
        RelabelledKeys(b, id, Mutated(m.labels, f.add, f.remove), w);
        FilteredDrafts(next, id, filters[1..], w);
      } else {
        FilteredDrafts(b, id, filters[1..], w);
      }
    }
  }

  lemma RelabelledKeys(b: Box, id: string, labels: Labels, w: World)
    requires id in b.messages
    ensures Relabelled(b, id, labels, w).messages.Keys == b.messages.Keys
  {
  }

  lemma CreatedDrafts(b: Box, id: string, m: Message, extras: Extras, w: World)
    requires DraftsOk(b)
    ensures DraftsOk(Created(b, id, m, extras, w))
  {
    hide Synced, DraftsOkBut, DraftsOk, Filtered;
    var arrived := Arrived(b, id, m, extras, w);
    DraftsOkWeakens(b, id);
    OthersKeepDrafts(b, arrived, id);
    FilteredDrafts(arrived, id, arrived.filters, w);
    SyncedOk(Filtered(arrived, id, arrived.filters, w), id, "", w);
  }

  lemma RemovedDrafts(b: Box, id: string, w: World)
    requires DraftsOkBut(b, id)
    ensures DraftsOk(Removed(b, id, w))
  {
    hide DraftsOf, KeepOne;
    var after := Removed(b, id, w);
    forall other
      ensures DraftsOkFor(after, other)
    {
      KeepOneLaw(b.drafts, id, -1, other);
      assert other != id ==> DraftsOkFor(b, other);
    }
  }

  lemma {:induction false} MutatedAllDrafts(b: Box, ids: seq<string>, how: Mutation, w: World)
    requires DraftsOk(b)
    ensures DraftsOk(MutatedAll(b, ids, how, w))
    decreases |ids|
  {
    hide DraftsOk, DraftsOkBut, Relabelled, Mutate;
    if ids != [] {
      if ids[0] in b.messages {
        DraftsOkWeakens(b, ids[0]);
        RelabelledDrafts(b, ids[0], Mutate(b.messages[ids[0]].labels, how), w);
        MutatedAllDrafts(Relabelled(b, ids[0], Mutate(b.messages[ids[0]].labels, how), w), ids[1..], how, w);
      } else {
        MutatedAllDrafts(b, ids[1..], how, w);
      }
    }
  }

  lemma {:induction false} RemovedAllDrafts(b: Box, ids: seq<string>, w: World)
    requires DraftsOk(b)
    ensures DraftsOk(RemovedAll(b, ids, w))
    decreases |ids|
  {
    hide DraftsOk, DraftsOkBut, Removed;
    if ids != [] {
      if ids[0] in b.messages {
        DraftsOkWeakens(b, ids[0]);
        RemovedDrafts(b, ids[0], w);
        RemovedAllDrafts(Removed(b, ids[0], w), ids[1..], w);
      } else {
        RemovedAllDrafts(b, ids[1..], w);
      }
    }
  }

  /** Every draft row names a live message that is a draft. */
  lemma DraftIsLive(b: Box, i: nat)
    requires DraftsOk(b) && i < |b.drafts|
    ensures var id := b.drafts[i].message; id in b.messages && IsDraft(b.messages[id].labels)
  {
    var id := b.drafts[i].message;
    assert DraftsOkFor(b, id);
    DraftsOfNone(b.drafts, id);
  }

  /** So the clean-up of stale rows never drops any. */
  lemma {:induction false} CleanUpIdle(b: Box, n: nat)
    requires DraftsOk(b) && n <= |b.drafts|
    ensures LiveDrafts(b, b.drafts[..n]) == b.drafts[..n]
    decreases n
  {
    hide DraftsOk;
    if n > 0 {
      var front := b.drafts[..n];
      CleanUpIdle(b, n - 1);
      DraftIsLive(b, n - 1);
      assert front[..n - 1] == b.drafts[..n - 1] && front[n - 1] == b.drafts[n - 1];
    }
  }

  lemma LookupIdle(b: Box, draftId: string)
    requires DraftsOk(b)
    ensures DraftLookup(b, draftId).0 == b
    ensures DraftLookup(b, draftId).1.Some? <==> FindDraft(b, draftId).Some?
  {
    hide DraftsOk;
    var f := FindDraft(b, draftId);
    if f.Some? {
      DraftIsLive(b, f.value);
    }
  }

  lemma {:induction false} DropDraft(b: Box, i: nat)
    requires DraftsOk(b) && i < |b.drafts|
    ensures DraftsOkBut(b.(drafts := DeleteAt(b.drafts, i)), b.drafts[i].message)
  {
    var after := b.(drafts := DeleteAt(b.drafts, i));
    forall other | other != b.drafts[i].message
      ensures DraftsOkFor(after, other)
    {
      assert DraftsOkFor(b, other);
      DraftsOfDelete(b.drafts, i, other);
    }
  }

  lemma {:induction false} DraftsOfDelete(drafts: seq<Draft>, i: nat, other: string)
    requires i < |drafts| && drafts[i].message != other
    ensures DraftsOf(DeleteAt(drafts, i), other) == DraftsOf(drafts, other)
    decreases |drafts|
  {
    var n := |drafts| - 1;
    if i < n {
      DraftsOfDelete(drafts[..n], i, other);
      assert DeleteAt(drafts, i) == DeleteAt(drafts[..n], i) + [drafts[n]];
      DraftsOfAppend(DeleteAt(drafts[..n], i), drafts[n], other);
    } else {
      assert DeleteAt(drafts, i) == drafts[..n];
    }
  }

  lemma UpdatedDrafts(b: Box, d: Draft, edit: Edit, w: World)
    requires d.message in b.messages && DraftsOk(b)
    ensures DraftsOk(DraftUpdated(b, d, edit, w))
  {
    hide Synced, DraftsOkBut, DraftsOk;
    var m := b.messages[d.message];
    var attachments := if edit.files.None? then b.attachments
                       else Unattached(b.attachments, d.message) + Attached(d.message, edit.files.value);
    var changed := Ticked(b, w).(messages := b.messages[d.message := Edited(m, edit, NextId(b, w))],
                                 attachments := attachments);
    DraftsOkWeakens(b, d.message);
    OthersKeepDrafts(b, changed, d.message);
    SyncedOk(changed, d.message, d.id, w);
  }

  lemma SameDrafts(b: Box, after: Box)
    requires DraftsOk(b) && after.drafts == b.drafts && after.messages == b.messages
    ensures DraftsOk(after)
  {
    forall id
      ensures DraftsOkFor(after, id)
    {
      assert DraftsOkFor(b, id);
    }
  }

  /** Every handler keeps drafts and labels in step. */
  lemma EventKeepsDrafts(b: Box, ev: Event, w: World)
    requires DraftsOk(b)
    ensures DraftsOk(Apply(b, ev, w))
  {
    hide DraftsOk, DraftsOkBut, Created, Synced, MutatedAll, RemovedAll, DraftUpdated, Relabelled, Removed, DraftLookup,
         LiveDrafts, Without;
    match ev
    case Create(id, m, asDraft, extras) =>
      var labels := Wanted(ev);
      CreatedDrafts(b, id, m.(labels := labels), extras, w);
      if asDraft {
        var made := Created(b, id, m.(labels := labels), extras, w);
        DraftsOkWeakens(made, id);
        SyncedOk(made, id, "", w);
      }
    case Modify(ids, how) => MutatedAllDrafts(b, ids, how, w);
    case Delete(ids) => RemovedAllDrafts(b, ids, w);
    case ModifyThread(thread, how) => MutatedAllDrafts(b, ThreadIds(b, b.rows, thread), how, w);
    case DeleteThread(thread) => RemovedAllDrafts(b, ThreadIds(b, b.rows, thread), w);
    case UpdateDraft(draftId, edit) =>
      LookupIdle(b, draftId);
      var d := DraftLookup(b, draftId).1;
      if d.Some? {
        UpdatedDrafts(b, d.value, edit, w);
      }
    case SendDraft(draftId) =>
      LookupIdle(b, draftId);
      LookupFinds(b, draftId);
      var d := DraftLookup(b, draftId).1;
      if d.Some? {
        var i := FindDraft(b, draftId).value;
        DropDraft(b, i);
        RelabelledDrafts(b.(drafts := DeleteAt(b.drafts, i)), d.value.message,
                         Mutated(b.messages[d.value.message].labels, {"SENT"}, {"DRAFT"}), w);
      }
    case DeleteDraft(draftId) =>
      LookupIdle(b, draftId);
      LookupFinds(b, draftId);
      var d := DraftLookup(b, draftId).1;
      if d.Some? {
        var i := FindDraft(b, draftId).value;
        DropDraft(b, i);
        RemovedDrafts(b.(drafts := DeleteAt(b.drafts, i)), d.value.message, w);
      }
    case GetDraft(draftId) => LookupIdle(b, draftId);
    case ListDrafts =>
      CleanUpIdle(b, |b.drafts|);
      assert b.drafts[..|b.drafts|] == b.drafts;
    case DeleteLabel(labelId) =>
      var without := b.(labels := b.labels - {labelId});
      SameDrafts(b, without);
      MutatedAllDrafts(without, b.rows, Change({}, {labelId}), w);
    case CreateLabel(_) => SameDrafts(b, Apply(b, ev, w));
    case CreateFilter(_) => SameDrafts(b, Apply(b, ev, w));
    case DeleteFilter(_) => SameDrafts(b, Apply(b, ev, w));
    case Elsewhere => SameDrafts(b, Apply(b, ev, w));
  }

  lemma LookupFinds(b: Box, draftId: string)
    ensures var d := DraftLookup(b, draftId).1;
            d.Some? ==> FindDraft(b, draftId).Some? && b.drafts[FindDraft(b, draftId).value] == d.value
  {
  }

  /** Over whole runs drafts follow labels. */
  lemma {:induction false} RunKeepsDrafts(b: Box, evs: seq<Event>, w: World)
    requires DraftsOk(b)
    ensures DraftsOk(Run(b, evs, w))
    decreases |evs|
  {
    hide DraftsOk, Apply;
    if evs != [] {
      EventKeepsDrafts(b, evs[0], w);
      RunKeepsDrafts(Apply(b, evs[0], w), evs[1..], w);
    }
  }

  lemma EmptyDrafts()
    ensures DraftsOk(EMPTY)
  {
  }

  /** In every reachable mailbox drafts follow labels. */
  lemma ReachableKeepsDrafts(evs: seq<Event>, w: World)
    ensures DraftsOk(Run(EMPTY, evs, w))
  {
    EmptyDrafts();
    RunKeepsDrafts(EMPTY, evs, w);
  }
}
