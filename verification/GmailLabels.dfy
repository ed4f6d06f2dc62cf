/** What the handlers of a mailbox do to labels. */
module GmailLabels {
  import opened Tables
  import opened Gmail
  import opened GmailHistory

  // ---------------------------------------------------------------- mutations

  /** A mutation done twice is a mutation done once, so repeated ids in a batch do no harm. */
  lemma MutateTwice(labels: Labels, how: Mutation)
    ensures Mutate(Mutate(labels, how), how) == Mutate(labels, how)
  {
  }

  /** Untrashing undoes trashing exactly for messages outside the trash that are in the inbox if and only if they are
      neither sent nor drafts. */
  lemma UntrashUndoesTrashIff(labels: Labels)
    ensures Mutate(Mutate(labels, ToTrash), FromTrash) == labels
       <==> "TRASH" !in labels && ("INBOX" in labels <==> "SENT" !in labels && "DRAFT" !in labels)
  {
  }

  lemma RelabelledShows(b: Box, id: string, labels: Labels, w: World)
    requires id in b.messages && "" !in labels
    ensures var after := Relabelled(b, id, labels, w);
            after.messages.Keys == b.messages.Keys && after.rows == b.rows && after.filters == b.filters
              && after.labels == b.labels
    ensures var after := Relabelled(b, id, labels, w);
            forall k :: k in b.messages ==>
              after.messages[k]
              == if k == id then b.messages[k].(labels := labels, historyId := NextId(b, w)) else b.messages[k]
  {
    assert labels - {""} == labels;
  }

  ghost predicate NoBlank(b: Box) {
    forall id :: id in b.messages ==> "" !in b.messages[id].labels
  }

  /** What a batch over `ids` may change. */
  ghost predicate Batch(b: Box, after: Box, ids: seq<string>, how: Mutation) {
    && after.messages.Keys == b.messages.Keys
    && after.rows == b.rows && after.filters == b.filters && after.labels == b.labels
    && forall k :: k in b.messages ==>
         after.messages[k] == b.messages[k].(labels := if k in ids then Mutate(b.messages[k].labels, how)
                                             else b.messages[k].labels,
                                             historyId := after.messages[k].historyId)
         && (k !in ids ==> after.messages[k].historyId == b.messages[k].historyId)
  }

  lemma BatchStep(b: Box, next: Box, after: Box, ids: seq<string>, how: Mutation)
    requires ids != [] && ids[0] in b.messages && next.rows == b.rows && next.filters == b.filters
             && next.labels == b.labels
    requires ids[0] in next.messages && next.messages == b.messages[ids[0] := next.messages[ids[0]]]
    requires next.messages[ids[0]] == b.messages[ids[0]].(labels := Mutate(b.messages[ids[0]].labels, how),
                                                          historyId := next.messages[ids[0]].historyId)
    requires Batch(next, after, ids[1..], how)
    ensures Batch(b, after, ids, how)
  {
    hide Mutate;
    assert ids == [ids[0]] + ids[1..];
    MutateTwice(b.messages[ids[0]].labels, how);
  }

  lemma BatchSkips(b: Box, after: Box, ids: seq<string>, how: Mutation)
    requires ids != [] && ids[0] !in b.messages && Batch(b, after, ids[1..], how)
    ensures Batch(b, after, ids, how)
  {
    assert ids == [ids[0]] + ids[1..];
  }

  /** A batch changes the labels of exactly the messages it names, and nothing else of any message but its history
      id. */
  lemma {:induction false} MutatedAllLaw(b: Box, ids: seq<string>, how: Mutation, w: World)
    requires NoBlank(b)
    ensures Batch(b, MutatedAll(b, ids, how, w), ids, how)
    decreases |ids|
  {
    if ids != [] {
      hide Relabelled, Mutate, Batch, NoBlank;
      if ids[0] in b.messages {
        var labels := Mutate(b.messages[ids[0]].labels, how);
        NoBlankMade(b, ids[0], how);
        RelabelledShows(b, ids[0], labels, w);
        var next := Relabelled(b, ids[0], labels, w);
        KeepsNoBlank(b, ids[0], how, next);
        MutatedAllLaw(next, ids[1..], how, w);
        BatchStep(b, next, MutatedAll(b, ids, how, w), ids, how);
      } else {
        MutatedAllLaw(b, ids[1..], how, w);
        BatchSkips(b, MutatedAll(b, ids, how, w), ids, how);
      }
    }
  }

  lemma NoBlankMade(b: Box, id: string, how: Mutation)
    requires NoBlank(b) && id in b.messages
    ensures "" !in Mutate(b.messages[id].labels, how)
  {
    assert "" !in b.messages[id].labels;
  }

  lemma KeepsNoBlank(b: Box, id: string, how: Mutation, next: Box)
    requires NoBlank(b) && id in b.messages && next.messages.Keys == b.messages.Keys
    requires forall k :: k in b.messages ==>
      next.messages[k].labels == if k == id then Mutate(b.messages[k].labels, how) else b.messages[k].labels
    ensures NoBlank(next)
  {
    NoBlankMade(b, id, how);
  }

  // ---------------------------------------------------------------- filters

  /** The labels a new message ends up with: the user's matching filters in order. */
  function FilterFold(labels: Labels, from: string, filters: seq<Filter>, w: World): Labels
    decreases |filters|
  {
    if filters == [] then labels
    else
      var f := filters[0];
      FilterFold(if f.from != "" && w.hits(f.from, from) then Mutated(labels, f.add, f.remove) else labels,
                 from, filters[1..], w)
  }

  lemma {:induction false} FilteredLaw(b: Box, id: string, filters: seq<Filter>, w: World)
    requires id in b.messages && NoBlank(b)
    ensures var after, m := Filtered(b, id, filters, w), b.messages[id];
            after.messages == b.messages[id := m.(labels := FilterFold(m.labels, m.from, filters, w),
                                                  historyId := after.messages[id].historyId)]
            && after.rows == b.rows && after.filters == b.filters && after.labels == b.labels
    decreases |filters|
  {
    hide Relabelled;
    if filters != [] {
      var f, m := filters[0], b.messages[id];
      if f.from != "" && w.hits(f.from, m.from) {
        var labels := Mutated(m.labels, f.add, f.remove);
        RelabelledShows(b, id, labels, w);
        var next := Relabelled(b, id, labels, w);
        FilteredLaw(next, id, filters[1..], w);
        assert next.messages[id].from == m.from && next.messages[id].labels == labels;
      } else {
        FilteredLaw(b, id, filters[1..], w);
      }
    }
  }

  /** A new message is stored as given, with the labels the filters leave it; no other message changes. */
  lemma CreatedLaw(b: Box, id: string, m: Message, extras: Extras, w: World)
    requires NoBlank(b) && id !in b.messages
    ensures var after := Created(b, id, m, extras, w);
            id in after.messages
            && after.messages == b.messages[id := m.(thread := Threaded(b, id, m.thread, extras.replies),
                                                     labels := FilterFold(m.labels - {""}, m.from, b.filters, w),
                                                     historyId := after.messages[id].historyId)]
            && after.rows == b.rows + [id]
  {
    hide Filtered;
    var arrived := Arrived(b, id, m, extras, w);
    FilteredLaw(arrived, id, arrived.filters, w);
  }

  // ---------------------------------------------------------------- deleted labels

  ghost predicate MessagesExist(b: Box) {
    forall id :: id in b.messages ==> b.messages[id].labels <= SYSTEM + b.labels
  }

  ghost predicate FiltersExist(b: Box) {
    forall f :: f in b.filters ==> f.add - {""} <= SYSTEM + b.labels
  }

  /** Messages and filters only name labels that exist. */
  ghost predicate LabelsExist(b: Box) {
    MessagesExist(b) && FiltersExist(b)
  }

  predicate Hits(f: Filter, from: string, w: World) {
    f.from != "" && w.hits(f.from, from)
  }

  /** None of the filters that hit takes the label away. */
  ghost predicate Spares(filters: seq<Filter>, from: string, name: string, w: World) {
    forall f :: f in filters && Hits(f, from, w) ==> name !in f.remove
  }

  /** Filter `i` adds the label, and none of those behind it takes it away. */
  ghost predicate AddsLast(filters: seq<Filter>, i: nat, from: string, name: string, w: World) {
    i < |filters| && Hits(filters[i], from, w) && name != "" && name in filters[i].add - filters[i].remove
    && Spares(filters[i + 1..], from, name, w)
  }

  /** A label is on a message behind the filters exactly if one of them adds it for good, or if it was there and they
      all spare it. */
  lemma {:induction false} FoldLaw(labels: Labels, from: string, filters: seq<Filter>, name: string, w: World)
    ensures name in FilterFold(labels, from, filters, w)
       <==> (exists i :: AddsLast(filters, i, from, name, w)) || (name in labels && Spares(filters, from, name, w))
    decreases |filters|
  {
    if filters != [] {
      var f, rest := filters[0], filters[1..];
      var next := if Hits(f, from, w) then Mutated(labels, f.add, f.remove) else labels;
      FoldLaw(next, from, rest, name, w);
      assert filters == [f] + rest;
      SparesFirst(f, rest, from, name, w);
      AddsLastFirst(f, rest, from, name, w);
    }
  }

  lemma AddsLastFirst(f: Filter, rest: seq<Filter>, from: string, name: string, w: World)
    ensures (exists i :: AddsLast([f] + rest, i, from, name, w))
       <==> (exists i :: AddsLast(rest, i, from, name, w))
            || (Hits(f, from, w) && name != "" && name in f.add - f.remove && Spares(rest, from, name, w))
  {
    var filters := [f] + rest;
    forall i: nat | i < |rest|
      ensures AddsLast(filters, i + 1, from, name, w) <==> AddsLast(rest, i, from, name, w)
    {
      assert filters[i + 2..] == rest[i + 1..];
    }
    assert filters[1..] == rest;
    assert AddsLast(filters, 0, from, name, w)
      <==> Hits(f, from, w) && name != "" && name in f.add - f.remove && Spares(rest, from, name, w);
    if i: nat :| AddsLast(rest, i, from, name, w) {
      assert AddsLast(filters, i + 1, from, name, w);
    }
    if i: nat :| AddsLast(filters, i, from, name, w) {
      if i > 0 {
        assert AddsLast(rest, i - 1, from, name, w);
      }
    }
  }

  lemma SparesFirst(f: Filter, rest: seq<Filter>, from: string, name: string, w: World)
    ensures Spares([f] + rest, from, name, w)
       <==> (Hits(f, from, w) ==> name !in f.remove) && Spares(rest, from, name, w)
  {
    assert f in [f] + rest;
    assert forall g :: g in [f] + rest <==> g == f || g in rest;
  }

  /** The step stores a message that filters leave with a label that does not exist. */
  ghost predicate Revives(b: Box, ev: Event, w: World) {
    Stores(b, ev) && exists name, i ::
      AddsLast(b.filters, i, ev.message.from, name, w) && name !in SYSTEM + b.labels
  }

  /** The step deletes a label that some filter still adds. */
  ghost predicate OrphansFilter(b: Box, ev: Event) {
    ev.DeleteLabel? && ev.labelId !in SYSTEM && ev.labelId in b.labels && ev.labelId != ""
      && exists f :: f in b.filters && ev.labelId in f.add
  }

  lemma {:induction false} RemovedAllShows(b: Box, ids: seq<string>, w: World)
    ensures var after := RemovedAll(b, ids, w);
            after.messages == (map k | k in b.messages && k !in ids :: b.messages[k]) && after.filters == b.filters
              && after.labels == b.labels
    decreases |ids|
  {
    if ids != [] {
      assert ids == [ids[0]] + ids[1..];
      RemovedAllShows(if ids[0] in b.messages then Removed(b, ids[0], w) else b, ids[1..], w);
    }
  }

  lemma MutateExists(labels: Labels, how: Mutation, known: Labels)
    requires labels <= known && SYSTEM <= known && (how.Change? ==> how.add - {""} <= known)
    ensures Mutate(labels, how) <= known
  {
  }

  /** Labels and filters are as they were. */
  ghost predicate SameLists(b: Box, after: Box) {
    after.filters == b.filters && after.labels == b.labels
  }

  lemma MutatedAllExists(b: Box, ids: seq<string>, how: Mutation, w: World)
    requires NoBlank(b) && MessagesExist(b) && MayMutate(b, how)
    ensures var after := MutatedAll(b, ids, how, w); MessagesExist(after) && SameLists(b, after)
  {
    hide Mutate, MutatedAll;
    var after := MutatedAll(b, ids, how, w);
    MutatedAllLaw(b, ids, how, w);
    forall id | id in after.messages
      ensures after.messages[id].labels <= SYSTEM + b.labels
    {
      MutateExists(b.messages[id].labels, how, SYSTEM + b.labels);
    }
  }

  lemma CreateLists(b: Box, id: string, m: Message, extras: Extras, w: World)
    requires NoBlank(b) && id !in b.messages
    ensures SameLists(b, Created(b, id, m, extras, w))
  {
    hide Filtered, Synced;
    var arrived := Arrived(b, id, m, extras, w);
    FilteredLaw(arrived, id, arrived.filters, w);
    SyncedShows(Filtered(arrived, id, arrived.filters, w), id, "", w);
  }

  lemma SyncedShows(b: Box, id: string, preferred: string, w: World)
    ensures var after := Synced(b, id, preferred, w); after.messages == b.messages && SameLists(b, after)
  {
  }

  /** Storing a message brings in exactly the labels its filters leave behind. */
  lemma CreateExistsIff(b: Box, ev: Event, w: World)
    requires NoBlank(b) && MessagesExist(b) && Admissible(b, ev) && Stores(b, ev)
    ensures var after := Apply(b, ev, w); SameLists(b, after) && (MessagesExist(after) <==> !Revives(b, ev, w))
  {
    hide Created, FilterFold, SYSTEM, Synced;
    var id, m, after := ev.id, ev.message.(labels := Wanted(ev)), Apply(b, ev, w);
    var made := Created(b, id, m, ev.extras, w);
    CreatedLaw(b, id, m, ev.extras, w);
    CreateLists(b, id, m, ev.extras, w);
    SyncedShows(made, id, "", w);
    var labels, known := FilterFold(m.labels - {""}, m.from, b.filters, w), SYSTEM + b.labels;
    assert after.messages[id].labels == labels && after.labels == b.labels;
    assert MessagesExist(after) <==> labels <= known;
    FoldExistsIff(m.labels - {""}, m.from, b.filters, known, w);
  }

  lemma FoldExistsIff(labels: Labels, from: string, filters: seq<Filter>, known: Labels, w: World)
    requires labels <= known
    ensures FilterFold(labels, from, filters, w) <= known
       <==> !exists name, i :: AddsLast(filters, i, from, name, w) && name !in known
  {
    hide FilterFold, AddsLast;
    if name, i :| AddsLast(filters, i, from, name, w) && name !in known {
      FoldLaw(labels, from, filters, name, w);
    }
    if name :| name in FilterFold(labels, from, filters, w) && name !in known {
      FoldLaw(labels, from, filters, name, w);
    }
  }

  /** Deleting a label takes it from every message and changes no other label of any. */
  lemma LabelTaken(b: Box, labelId: string, w: World)
    requires NoBlank(b) && RowsOk(b) && labelId !in SYSTEM && labelId in b.labels
    ensures var after := Apply(b, DeleteLabel(labelId), w);
            after.messages.Keys == b.messages.Keys && after.filters == b.filters && after.labels == b.labels - {labelId}
            && forall id :: id in b.messages ==> after.messages[id].labels == b.messages[id].labels - {labelId}
  {
    hide MutatedAll, Mutate, RowsOk;
    var without := b.(labels := b.labels - {labelId});
    MutatedAllLaw(without, b.rows, Change({}, {labelId}), w);
    RowsName(b);
    forall id | id in b.messages
      ensures Mutate(b.messages[id].labels, Change({}, {labelId})) == b.messages[id].labels - {labelId}
    {
      MutateRemoves(b.messages[id].labels, labelId);
    }
  }

  lemma DeletedLabel(b: Box, ev: Event, w: World)
    requires NoBlank(b) && LabelsExist(b) && RowsOk(b) && ev.DeleteLabel?
    ensures LabelsExist(Apply(b, ev, w)) <==> !OrphansFilter(b, ev)
    ensures var after := Apply(b, ev, w);
            ev.labelId !in SYSTEM && ev.labelId in b.labels ==>
              && ev.labelId !in after.labels
              && forall id :: id in after.messages ==> ev.labelId !in after.messages[id].labels
  {
    var labelId := ev.labelId;
    if labelId !in SYSTEM && labelId in b.labels {
      hide MutatedAll, RowsOk;
      LabelTaken(b, labelId, w);
      FiltersAfter(b, labelId);
    }
  }

  lemma RowsName(b: Box)
    requires RowsOk(b)
    ensures forall id :: id in b.messages ==> id in b.rows
  {
  }

  lemma MutateRemoves(labels: Labels, labelId: string)
    ensures Mutate(labels, Change({}, {labelId})) == labels - {labelId}
  {
  }

  lemma FiltersAfter(b: Box, labelId: string)
    requires FiltersExist(b) && labelId !in SYSTEM
    ensures (forall f :: f in b.filters ==> f.add - {""} <= SYSTEM + (b.labels - {labelId}))
       <==> labelId == "" || forall f :: f in b.filters ==> labelId !in f.add
  {
    if exists f :: f in b.filters && labelId in f.add && labelId != "" {
      var f :| f in b.filters && labelId in f.add && labelId != "";
      assert labelId in f.add - {""};
    }
  }

  /** What a step leaves as it is: the filters unless it is about one, the labels unless it is about one. */
  ghost predicate KeepsLists(b: Box, ev: Event, after: Box) {
    && (!ev.CreateFilter? && !ev.DeleteFilter? ==> after.filters == b.filters)
    && (!ev.CreateLabel? && !ev.DeleteLabel? ==> after.labels == b.labels)
  }

  lemma DraftStepKeepsMessages(b: Box, draftId: string, ev: Event, w: World)
    requires NoBlank(b) && MessagesExist(b) && (ev.UpdateDraft? || ev.SendDraft?) && ev.draftId == draftId
    ensures MessagesExist(Apply(b, ev, w)) && SameLists(b, Apply(b, ev, w))
  {
    hide DraftUpdated, Relabelled, FindDraft, DeleteAt, SYSTEM, NoBlank;
    SystemHas();
    var d := DraftLookup(b, draftId).1;
    if d.Some? {
      if ev.UpdateDraft? {
        UpdatedShows(b, d.value, ev.edit, w);
      } else {
        SentShows(b, draftId, d.value, w);
      }
    }
  }

  lemma OtherStepsKeepMessages(b: Box, ev: Event, w: World)
    requires NoBlank(b) && RowsOk(b) && MessagesExist(b) && !ev.Create?
    ensures MessagesExist(Apply(b, ev, w)) && KeepsLists(b, ev, Apply(b, ev, w))
  {
    hide RowsOk, Synced, MutatedAll, RemovedAll, LiveDrafts, FindDraft, DeleteAt, Mutate, SYSTEM, DraftUpdated,
         Relabelled;
    match ev
    case Modify(ids, how) =>
      if MayMutate(b, how) {
        MutatedAllExists(b, ids, how, w);
      }
    case Delete(ids) => RemovedAllShows(b, ids, w);
    case ModifyThread(thread, how) =>
      if MayMutate(b, how) {
        MutatedAllExists(b, ThreadIds(b, b.rows, thread), how, w);
      }
    case DeleteThread(thread) => RemovedAllShows(b, ThreadIds(b, b.rows, thread), w);
    case UpdateDraft(draftId, edit) => DraftStepKeepsMessages(b, draftId, ev, w);
    case SendDraft(draftId) => DraftStepKeepsMessages(b, draftId, ev, w);
    case DeleteLabel(labelId) =>
      if labelId !in SYSTEM && labelId in b.labels {
        LabelTaken(b, labelId, w);
      }
    case _ =>
  }

  /** Messages keep to labels that exist, exactly unless the step stores a message that the filters leave with
      another. */
  lemma StepKeepsMessagesIff(b: Box, ev: Event, w: World)
    requires IdsOk(b) && RowsOk(b) && MessagesExist(b) && Admissible(b, ev)
    ensures MessagesExist(Apply(b, ev, w)) <==> !Revives(b, ev, w)
    ensures KeepsLists(b, ev, Apply(b, ev, w))
  {
    hide IdsOk, RowsOk, Created, Synced, MessagesExist, AddsLast;
    NoBlanksOf(b);
    if !ev.Create? {
      OtherStepsKeepMessages(b, ev, w);
    } else if Stores(b, ev) {
      CreateExistsIff(b, ev, w);
    }
  }

  /** Where filters only add labels that exist, none is revived. */
  lemma ExistingFiltersReviveNone(b: Box, ev: Event, w: World)
    requires FiltersExist(b)
    ensures !Revives(b, ev, w)
  {
    if ev.Create? {
      forall name, i: nat | AddsLast(b.filters, i, ev.message.from, name, w)
        ensures name in SYSTEM + b.labels
      {
        assert name in b.filters[i].add - {""};
      }
    }
  }

  /** Every step keeps messages and filters to labels that exist, exactly unless it deletes one that a filter adds. */
  lemma StepKeepsLabelsIff(b: Box, ev: Event, w: World)
    requires IdsOk(b) && RowsOk(b) && LabelsExist(b) && Admissible(b, ev)
    ensures LabelsExist(Apply(b, ev, w)) <==> !OrphansFilter(b, ev)
  {
    hide IdsOk, RowsOk, Created, Synced, MutatedAll, RemovedAll, LiveDrafts, FindDraft, DeleteAt, Mutate, SYSTEM,
         Revives, MessagesExist;
    StepKeepsMessagesIff(b, ev, w);
    ExistingFiltersReviveNone(b, ev, w);
    NoBlanksOf(b);
    match ev
    case DeleteLabel(labelId) => DeletedLabel(b, ev, w);
    case DeleteFilter(filterId) => WithoutKeeps(b.filters, filterId);
    case _ =>
  }

  lemma SystemHas()
    ensures "DRAFT" in SYSTEM && "SENT" in SYSTEM
  {
  }

  lemma NoBlanksOf(b: Box)
    requires IdsOk(b)
    ensures NoBlank(b)
  {
  }

  lemma UpdatedShows(b: Box, d: Draft, edit: Edit, w: World)
    requires d.message in b.messages
    ensures var after := DraftUpdated(b, d, edit, w);
            after.messages.Keys == b.messages.Keys && after.filters == b.filters && after.labels == b.labels
            && forall id :: id in b.messages ==> after.messages[id].labels <= b.messages[id].labels + {"DRAFT"}
  {
  }

  lemma SentShows(b: Box, draftId: string, d: Draft, w: World)
    requires NoBlank(b) && DraftLookup(b, draftId).1 == Some(d) && FindDraft(b, draftId).Some?
    ensures var after := Apply(b, SendDraft(draftId), w);
            after.messages.Keys == b.messages.Keys && after.filters == b.filters && after.labels == b.labels
            && forall id :: id in b.messages ==>
                 after.messages[id].labels
                 == if id == d.message then Mutated(b.messages[id].labels, {"SENT"}, {"DRAFT"})
                    else b.messages[id].labels
  {
    hide Relabelled, FindDraft;
    var i := FindDraft(b, draftId).value;
    RelabelledShows(b.(drafts := DeleteAt(b.drafts, i)), d.message,
                    Mutated(b.messages[d.message].labels, {"SENT"}, {"DRAFT"}), w);
  }

  lemma WithoutKeeps(filters: seq<Filter>, filterId: string)
    ensures forall f :: f in Without(filters, (f: Filter) => f.id, filterId) ==> f in filters
  {
  }

  /** Runs on which no step deletes a label that a filter still adds. */
  ghost predicate NeverOrphans(b: Box, evs: seq<Event>, w: World)
    decreases |evs|
  {
    evs == [] || (!OrphansFilter(b, evs[0]) && NeverOrphans(Apply(b, evs[0], w), evs[1..], w))
  }

  lemma {:induction false} RunKeepsLabels(b: Box, evs: seq<Event>, w: World)
    requires Sound(b) && LabelsExist(b) && AllAdmissible(b, evs, w) && NeverOrphans(b, evs, w)
    ensures LabelsExist(Run(b, evs, w))
    decreases |evs|
  {
    hide LabelsExist, Apply, Admissible, OrphansFilter;
    if evs != [] {
      StepKeepsLabelsIff(b, evs[0], w);
      SoundStep(b, evs[0], w);
      RunKeepsLabels(Apply(b, evs[0], w), evs[1..], w);
    }
  }

  /** In every mailbox reached without such a deletion all labels exist. */
  lemma ReachableLabelsExist(evs: seq<Event>, w: World)
    requires AllAdmissible(EMPTY, evs, w) && NeverOrphans(EMPTY, evs, w)
    ensures LabelsExist(Run(EMPTY, evs, w))
  {
    RunKeepsLabels(EMPTY, evs, w);
  }

  /** Runs on which no filter leaves a message with a label that does not exist. */
  ghost predicate NeverRevives(b: Box, evs: seq<Event>, w: World)
    decreases |evs|
  {
    evs == [] || (!Revives(b, evs[0], w) && NeverRevives(Apply(b, evs[0], w), evs[1..], w))
  }

  lemma {:induction false} RunKeepsMessages(b: Box, evs: seq<Event>, w: World)
    requires Sound(b) && MessagesExist(b) && AllAdmissible(b, evs, w) && NeverRevives(b, evs, w)
    ensures MessagesExist(Run(b, evs, w))
    decreases |evs|
  {
    hide MessagesExist, Apply, Admissible, Revives;
    if evs != [] {
      StepKeepsMessagesIff(b, evs[0], w);
      SoundStep(b, evs[0], w);
      RunKeepsMessages(Apply(b, evs[0], w), evs[1..], w);
    }
  }

  /** In every mailbox reached without such an arrival all labels of messages exist. */
  lemma ReachableMessagesExist(evs: seq<Event>, w: World)
    requires AllAdmissible(EMPTY, evs, w) && NeverRevives(EMPTY, evs, w)
    ensures MessagesExist(Run(EMPTY, evs, w))
  {
    RunKeepsMessages(EMPTY, evs, w);
  }

  const ADDS_L := Filter("f", "x", {"L"}, {})
  const FIRST_STEPS := [CreateLabel("L"), CreateFilter(ADDS_L), DeleteLabel("L")]

  /** Where a filter still adds a deleted label, a message that arrives later carries it. */
  lemma DeletedLabelComesBack(m: Message, w: World)
    requires m.labels == {} && w.hits("x", m.from)
    ensures var after := Run(EMPTY, FIRST_STEPS + [Create("m", m, false, Extras([], []))], w);
            "L" !in after.labels && "m" in after.messages && "L" in after.messages["m"].labels
  {
    hide Created, MutatedAll, Apply, Run;
    var ev := Create("m", m, false, Extras([], []));
    var without := EMPTY.(filters := [ADDS_L]);
    DeletesUnderFilter(w);
    RunJoins(EMPTY, FIRST_STEPS, [ev], w);
    RunOne(without, ev, w);
    CreatesUnderFilter(without, m, w);
  }

  lemma CreatesUnderFilter(b: Box, m: Message, w: World)
    requires b == EMPTY.(filters := [ADDS_L]) && m.labels == {} && w.hits("x", m.from)
    ensures var after := Apply(b, Create("m", m, false, Extras([], [])), w);
            "L" !in after.labels && "m" in after.messages && "L" in after.messages["m"].labels
  {
    hide Created;
    CreatedLaw(b, "m", m, Extras([], []), w);
    CreatedQuiet(b, "m", m, Extras([], []), w);
    assert b.filters[1..] == [];
    assert FilterFold({}, m.from, b.filters, w) == FilterFold({"L"}, m.from, [], w) == {"L"};
  }

  /** The run that deletes a label a filter adds: the filter names a label that does not exist. */
  lemma DeletesUnderFilter(w: World)
    ensures Run(EMPTY, FIRST_STEPS, w) == EMPTY.(filters := [ADDS_L])
    ensures !LabelsExist(Run(EMPTY, FIRST_STEPS, w))
  {
    OrphanLeft();
    var one := EMPTY.(labels := {"L"});
    var two := one.(filters := [ADDS_L]);
    assert EMPTY.labels + {"L"} == {"L"} && one.filters + [ADDS_L] == [ADDS_L] && {"L"} - {"L"} == {};
    assert Apply(EMPTY, FIRST_STEPS[0], w) == one;
    assert Apply(one, FIRST_STEPS[1], w) == two;
    assert Apply(two, FIRST_STEPS[2], w) == EMPTY.(filters := [ADDS_L]);
    hide Apply, Run;
    assert FIRST_STEPS == [FIRST_STEPS[0]] + ([FIRST_STEPS[1]] + [FIRST_STEPS[2]]);
    RunJoins(EMPTY, [FIRST_STEPS[0]], [FIRST_STEPS[1]] + [FIRST_STEPS[2]], w);
    RunJoins(one, [FIRST_STEPS[1]], [FIRST_STEPS[2]], w);
    RunOne(EMPTY, FIRST_STEPS[0], w);
    RunOne(one, FIRST_STEPS[1], w);
    RunOne(two, FIRST_STEPS[2], w);
  }

  lemma OrphanLeft()
    ensures !LabelsExist(EMPTY.(filters := [ADDS_L]))
  {
    var b := EMPTY.(filters := [ADDS_L]);
    assert ADDS_L in b.filters && "L" in ADDS_L.add - {""} && "L" !in SYSTEM + b.labels;
  }

  lemma RunOne(b: Box, ev: Event, w: World)
    ensures Run(b, [ev], w) == Apply(b, ev, w)
  {
    hide Apply;
    assert [ev][1..] == [];
  }

  lemma {:induction false} RunJoins(b: Box, evs: seq<Event>, more: seq<Event>, w: World)
    ensures Run(b, evs + more, w) == Run(Run(b, evs, w), more, w)
    decreases |evs|
  {
    hide Apply;
    if evs == [] {
      assert evs + more == more;
    } else {
      assert (evs + more)[1..] == evs[1..] + more;
      RunJoins(Apply(b, evs[0], w), evs[1..], more, w);
    }
  }

  lemma CreatedQuiet(b: Box, id: string, m: Message, extras: Extras, w: World)
    requires NoBlank(b) && id !in b.messages
    ensures Created(b, id, m, extras, w).labels == b.labels
  {
    var arrived := Arrived(b, id, m, extras, w);
    FilteredLaw(arrived, id, arrived.filters, w);
  }
}
