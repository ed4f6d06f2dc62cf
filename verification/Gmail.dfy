/** One user's mailbox by value: messages, drafts, filters and the history of changes. */
module Gmail {
  import opened Tables

  type Labels = set<string>

  /** The label list shows up in the model as a set; messages keep their row order in `rows`. */
  datatype Message = Message(thread: string, messageId: string, from: string, time: int, content: string,
                             labels: Labels, historyId: int)
  datatype Draft = Draft(id: string, message: string)
  datatype Attachment = Attachment(id: string, message: string)
  datatype Kind = MessageAdded | MessageDeleted | LabelAdded | LabelRemoved
  datatype Row = Row(id: int, kind: Kind, message: string, labels: Labels)
  datatype Filter = Filter(id: string, from: string, add: Labels, remove: Labels)
  datatype Box = Box(messages: map<string, Message>, rows: seq<string>, drafts: seq<Draft>,
                     attachments: seq<Attachment>, history: seq<Row>, filters: seq<Filter>, labels: Labels,
                     last: int, ticks: nat)

  /** What comes with a new message: names for its attachments, and the message ids its reply headers name. */
  datatype Extras = Extras(files: seq<string>, replies: seq<string>)

  /** What the mailbox cannot know: clock readings, random names, and which senders a filter's text is found in. */
  datatype World = World(clock: nat -> int, name: nat -> string, hits: (string, string) -> bool)

  const SYSTEM: Labels := {"INBOX", "SENT", "UNREAD", "STARRED", "IMPORTANT", "TRASH", "SPAM", "DRAFT",
                           "CATEGORY_PERSONAL", "CATEGORY_SOCIAL", "CATEGORY_PROMOTIONS", "CATEGORY_UPDATES",
                           "CATEGORY_FORUMS"}

  const EMPTY := Box(map[], [], [], [], [], [], {}, 0, 0)

  predicate IsDraft(labels: Labels) {
    "DRAFT" in labels && "SENT" !in labels
  }

  /** Missing messages carry no labels. */
  function LabelsOf(b: Box, id: string): Labels {
    if id in b.messages then b.messages[id].labels else {}
  }

  // ---------------------------------------------------------------- steps of the handlers

  /** A history id: the clock's reading, or one more than the last id where the clock is not ahead of it. */
  function NextId(b: Box, w: World): (id: int)
    ensures id > b.last
  {
    if w.clock(b.ticks) <= b.last then b.last + 1 else w.clock(b.ticks)
  }

  function Ticked(b: Box, w: World): Box {
    b.(last := NextId(b, w), ticks := b.ticks + 1)
  }

  function Mutated(current: Labels, add: Labels, remove: Labels): Labels {
    current + (add - {""}) - remove
  }

  function Untrashed(labels: Labels): Labels {
    var next := Mutated(labels, {}, {"TRASH"});
    if "SENT" !in next && "DRAFT" !in next then Mutated(next, {"INBOX"}, {}) else next
  }

  function DraftsOf(drafts: seq<Draft>, id: string): seq<Draft> {
    if drafts == [] then []
    else
      DraftsOf(drafts[..|drafts| - 1], id)
      + if drafts[|drafts| - 1].message == id then [drafts[|drafts| - 1]] else []
  }

  /** The drafts without those of one message, except the one at `keep`. */
  function KeepOne(drafts: seq<Draft>, id: string, keep: int): seq<Draft> {
    if drafts == [] then []
    else
      var n := |drafts| - 1;
      KeepOne(drafts[..n], id, keep) + if drafts[n].message != id || n == keep then [drafts[n]] else []
  }

  function FirstDraft(drafts: seq<Draft>, id: string): (r: Option<nat>)
    ensures r.Some? ==> r.value < |drafts| && drafts[r.value].message == id
    ensures r.None? ==> forall i :: 0 <= i < |drafts| ==> drafts[i].message != id
  {
    Find(drafts, (d: Draft) => d.message, id)
  }

  /** Which of a message's drafts survives: the preferred one if there is one, else the first. */
  function Kept(drafts: seq<Draft>, id: string, preferred: string): Option<nat> {
    var named := Find(drafts, (d: Draft) => (d.message, d.id), (id, preferred));
    if preferred != "" && named.Some? then named else FirstDraft(drafts, id)
  }

  /** Drafts follow labels: one row for a message that is a draft, none for any other. */
  function SyncedDrafts(drafts: seq<Draft>, id: string, labels: Labels, preferred: string, unused: string): seq<Draft> {
    if !IsDraft(labels) then KeepOne(drafts, id, -1)
    else match Kept(drafts, id, preferred)
      case Some(keep) => KeepOne(drafts, id, keep)
      case None => drafts + [Draft(if preferred != "" then preferred else unused, id)]
  }

  function Synced(b: Box, id: string, preferred: string, w: World): Box {
    b.(drafts := SyncedDrafts(b.drafts, id, LabelsOf(b, id), preferred, w.name(b.ticks)))
  }

  /** The rows that record how a label set changed. */
  function LabelRows(historyId: int, id: string, before: Labels, after: Labels): seq<Row> {
    (if after - before != {} then [Row(historyId, LabelAdded, id, after - before)] else [])
    + (if before - after != {} then [Row(historyId, LabelRemoved, id, before - after)] else [])
  }

  /** Gives a stored message another label set. */
  function Relabelled(b: Box, id: string, labels: Labels, w: World): Box
    requires id in b.messages
  {
    var historyId, m := NextId(b, w), b.messages[id];
    var after := labels - {""};
    Synced(Ticked(b, w).(messages := b.messages[id := m.(labels := after, historyId := historyId)],
                         history := b.history + LabelRows(historyId, id, m.labels, labels)), id, "", w)
  }

  /** The user's filters, one after the other, on a message that just arrived. */
  function Filtered(b: Box, id: string, filters: seq<Filter>, w: World): (r: Box)
    requires id in b.messages
    ensures r.messages.Keys == b.messages.Keys
    decreases |filters|
  {
    if filters == [] then b
    else
      var f, m := filters[0], b.messages[id];
      var next := if f.from != "" && w.hits(f.from, m.from)
                  then Relabelled(b, id, Mutated(m.labels, f.add, f.remove), w) else b;
      Filtered(next, id, filters[1..], w)
  }

  /** The thread of the first message in row order that carries the message id. */
  function ThreadOf(b: Box, rows: seq<string>, messageId: string): Option<string> {
    if rows == [] then None
    else if rows[0] in b.messages && b.messages[rows[0]].messageId == messageId then Some(b.messages[rows[0]].thread)
    else ThreadOf(b, rows[1..], messageId)
  }

  /** The thread that the first known id among the reply headers leads to. */
  function ResolvedThread(b: Box, replies: seq<string>): string {
    if replies == [] then ""
    else match ThreadOf(b, b.rows, replies[0])
      case Some(thread) => thread
      case None => ResolvedThread(b, replies[1..])
  }

  /** The thread asked for, else the one replied to, else a new one. */
  function Threaded(b: Box, id: string, thread: string, replies: seq<string>): (r: string)
    ensures r != ""
  {
    var resolved := ResolvedThread(b, replies);
    if thread != "" then thread else if resolved != "" then resolved else "thread_" + id
  }

  function Attached(id: string, files: seq<string>): (r: seq<Attachment>)
    ensures |r| == |files| && forall i :: 0 <= i < |r| ==> r[i] == Attachment(files[i], id)
  {
    seq(|files|, i requires 0 <= i < |files| => Attachment(files[i], id))
  }

  /** The attachments of all other messages. */
  function Unattached(attachments: seq<Attachment>, id: string): seq<Attachment> {
    if attachments == [] then []
    else
      var n := |attachments| - 1;
      Unattached(attachments[..n], id) + if attachments[n].message == id then [] else [attachments[n]]
  }

  function Arrived(b: Box, id: string, m: Message, extras: Extras, w: World): Box {
    var historyId := NextId(b, w);
    var stored := m.(thread := Threaded(b, id, m.thread, extras.replies), labels := m.labels - {""},
                     historyId := historyId);
    Ticked(b, w).(messages := b.messages[id := stored], rows := b.rows + [id],
                  attachments := b.attachments + Attached(id, extras.files),
                  history := b.history + [Row(historyId, MessageAdded, id, {})])
  }

  /** Stores a new message, runs the filters over it and gives it a draft if it is one. */
  function Created(b: Box, id: string, m: Message, extras: Extras, w: World): Box {
    var arrived := Arrived(b, id, m, extras, w);
    Synced(Filtered(arrived, id, arrived.filters, w), id, "", w)
  }

  function WithoutId(rows: seq<string>, id: string): seq<string> {
    if rows == [] then []
    else WithoutId(rows[..|rows| - 1], id) + if rows[|rows| - 1] == id then [] else [rows[|rows| - 1]]
  }

  function Removed(b: Box, id: string, w: World): Box {
    Ticked(b, w).(messages := b.messages - {id}, rows := WithoutId(b.rows, id), drafts := KeepOne(b.drafts, id, -1),
                  attachments := Unattached(b.attachments, id),
                  history := b.history + [Row(NextId(b, w), MessageDeleted, id, {})])
  }

  // ---------------------------------------------------------------- the handlers

  datatype Mutation = Change(add: Labels, remove: Labels) | ToTrash | FromTrash

  function Mutate(labels: Labels, how: Mutation): Labels {
    match how
    case Change(add, remove) => Mutated(labels, add, remove)
    case ToTrash => Mutated(labels, {"TRASH"}, {"INBOX"})
    case FromTrash => Untrashed(labels)
  }

  /** Every label named is a system label or one of the user's. */
  predicate KnownLabels(b: Box, labels: Labels) {
    labels - {""} <= SYSTEM + b.labels
  }

  predicate MayMutate(b: Box, how: Mutation) {
    how.Change? ==> KnownLabels(b, how.add + how.remove)
  }

  /** The mutation on each message that is there, in order. */
  function MutatedAll(b: Box, ids: seq<string>, how: Mutation, w: World): Box
    decreases |ids|
  {
    if ids == [] then b
    else
      MutatedAll(if ids[0] in b.messages then Relabelled(b, ids[0], Mutate(b.messages[ids[0]].labels, how), w) else b,
                 ids[1..], how, w)
  }

  function RemovedAll(b: Box, ids: seq<string>, w: World): Box
    decreases |ids|
  {
    if ids == [] then b else RemovedAll(if ids[0] in b.messages then Removed(b, ids[0], w) else b, ids[1..], w)
  }

  /** Inserts an id behind all that are not later. */
  function InsertByTime(b: Box, sorted: seq<string>, id: string): seq<string>
    requires id in b.messages && forall k :: k in sorted ==> k in b.messages
  {
    if sorted == [] then [id]
    else if b.messages[sorted[|sorted| - 1]].time <= b.messages[id].time then sorted + [id]
    else InsertByTime(b, sorted[..|sorted| - 1], id) + [sorted[|sorted| - 1]]
  }

  /** The messages of a thread by time, in row order where times are equal. */
  function ThreadIds(b: Box, rows: seq<string>, thread: string): (r: seq<string>)
    ensures forall k :: k in r <==> k in rows && k in b.messages && b.messages[k].thread == thread
  {
    if rows == [] then []
    else
      var before, id := ThreadIds(b, rows[..|rows| - 1], thread), rows[|rows| - 1];
      assert rows == rows[..|rows| - 1] + [id];
      if id in b.messages && b.messages[id].thread == thread then
        InsertKeeps(b, before, id);
        InsertByTime(b, before, id)
      else before
  }

  lemma {:induction false} InsertKeeps(b: Box, sorted: seq<string>, id: string)
    requires id in b.messages && forall k :: k in sorted ==> k in b.messages
    ensures forall k :: k in InsertByTime(b, sorted, id) <==> k == id || k in sorted
  {
    if sorted != [] && b.messages[sorted[|sorted| - 1]].time > b.messages[id].time {
      InsertKeeps(b, sorted[..|sorted| - 1], id);
      assert sorted == sorted[..|sorted| - 1] + [sorted[|sorted| - 1]];
    }
  }

  /** The draft of that id, whose row is dropped when its message is no draft. */
  function FindDraft(b: Box, draftId: string): (r: Option<nat>)
    ensures r.Some? ==> r.value < |b.drafts|
  {
    Find(b.drafts, (d: Draft) => d.id, draftId)
  }

  function DraftLookup(b: Box, draftId: string): (r: (Box, Option<Draft>))
    ensures r.1.Some? ==> r.1.value.message in b.messages && IsDraft(b.messages[r.1.value.message].labels) && r.0 == b
  {
    match FindDraft(b, draftId)
    case None => (b, None)
    case Some(i) =>
      if IsDraft(LabelsOf(b, b.drafts[i].message)) then (b, Some(b.drafts[i]))
      else (b.(drafts := DeleteAt(b.drafts, i)), None)
  }

  /** What an update of a draft may change besides the labels; a raw message replaces the attachments. */
  datatype Edit = Edit(thread: string, messageId: string, from: string, content: string, files: Option<seq<string>>)

  function Edited(m: Message, edit: Edit, historyId: int): Message {
    m.(thread := if edit.thread != "" then edit.thread else m.thread,
       messageId := if edit.messageId != "" then edit.messageId else m.messageId,
       from := edit.from, content := edit.content, labels := Mutated(m.labels, {"DRAFT"}, {}), historyId := historyId)
  }

  function DraftUpdated(b: Box, d: Draft, edit: Edit, w: World): Box
    requires d.message in b.messages
  {
    var m := b.messages[d.message];
    var attachments := if edit.files.None? then b.attachments
                       else Unattached(b.attachments, d.message) + Attached(d.message, edit.files.value);
    Synced(Ticked(b, w).(messages := b.messages[d.message := Edited(m, edit, NextId(b, w))],
                         attachments := attachments),
           d.message, d.id, w)
  }

  /** Drops the rows whose message is no draft. */
  function LiveDrafts(b: Box, drafts: seq<Draft>): seq<Draft> {
    if drafts == [] then []
    else LiveDrafts(b, drafts[..|drafts| - 1])
         + if IsDraft(LabelsOf(b, drafts[|drafts| - 1].message)) then [drafts[|drafts| - 1]] else []
  }

  datatype Event =
    | Create(id: string, message: Message, asDraft: bool, extras: Extras)
    | Modify(ids: seq<string>, how: Mutation)
    | Delete(ids: seq<string>)
    | ModifyThread(thread: string, how: Mutation)
    | DeleteThread(thread: string)
    | UpdateDraft(draftId: string, edit: Edit)
    | SendDraft(draftId: string)
    | DeleteDraft(draftId: string)
    | GetDraft(draftId: string)
    | ListDrafts
    | CreateLabel(labelId: string)
    | DeleteLabel(labelId: string)
    | CreateFilter(filter: Filter)
    | DeleteFilter(filterId: string)
    | Elsewhere

  /** The labels a new message asks for. */
  function Wanted(ev: Event): Labels
    requires ev.Create?
  {
    if ev.asDraft then ev.message.labels + {"DRAFT"} else ev.message.labels
  }

  /** The step stores a new message. */
  predicate Stores(b: Box, ev: Event) {
    ev.Create? && KnownLabels(b, Wanted(ev))
  }

  function Apply(b: Box, ev: Event, w: World): Box {
    match ev
    case Create(id, m, asDraft, extras) =>
      var labels := Wanted(ev);
      if !KnownLabels(b, labels) then b
      else
        var made := Created(b, id, m.(labels := labels), extras, w);
        if asDraft then Synced(made, id, "", w) else made
    case Modify(ids, how) => if MayMutate(b, how) then MutatedAll(b, ids, how, w) else b
    case Delete(ids) => RemovedAll(b, ids, w)
    case ModifyThread(thread, how) =>
      if MayMutate(b, how) then MutatedAll(b, ThreadIds(b, b.rows, thread), how, w) else b
    case DeleteThread(thread) => RemovedAll(b, ThreadIds(b, b.rows, thread), w)
    case UpdateDraft(draftId, edit) =>
      var (b', d) := DraftLookup(b, draftId);
      if d.None? then b' else DraftUpdated(b, d.value, edit, w)
    case SendDraft(draftId) =>
      var (b', d) := DraftLookup(b, draftId);
      if d.None? then b'
      else
        var i := FindDraft(b, draftId).value;
        Relabelled(b.(drafts := DeleteAt(b.drafts, i)), d.value.message,
                   Mutated(b.messages[d.value.message].labels, {"SENT"}, {"DRAFT"}), w)
    case DeleteDraft(draftId) =>
      var (b', d) := DraftLookup(b, draftId);
      if d.None? then b'
      else
        var i := FindDraft(b, draftId).value;
        Removed(b.(drafts := DeleteAt(b.drafts, i)), d.value.message, w)
    case GetDraft(draftId) => DraftLookup(b, draftId).0
    case ListDrafts => b.(drafts := LiveDrafts(b, b.drafts))
    case CreateLabel(labelId) => b.(labels := b.labels + {labelId})
    case DeleteLabel(labelId) =>
      if labelId in SYSTEM || labelId !in b.labels then b
      else MutatedAll(b.(labels := b.labels - {labelId}), b.rows, Change({}, {labelId}), w)
    case CreateFilter(f) =>
      if f.add + f.remove == {} || !KnownLabels(b, f.add + f.remove)
         || exists g ::
              g in b.filters && g.from == f.from && g.add - {""} == f.add - {""} && g.remove - {""} == f.remove - {""}
      then b
      else b.(filters := b.filters + [f])
    case DeleteFilter(filterId) => b.(filters := Without(b.filters, (f: Filter) => f.id, filterId))
    case Elsewhere => Ticked(b, w)
  }

  /** New messages get names that were never used. */
  predicate Admissible(b: Box, ev: Event) {
    ev.Create? ==> ev.id !in b.messages && forall i :: 0 <= i < |b.history| ==> b.history[i].message != ev.id
  }

  ghost predicate AllAdmissible(b: Box, evs: seq<Event>, w: World)
    decreases |evs|
  {
    evs == [] || (Admissible(b, evs[0]) && AllAdmissible(Apply(b, evs[0], w), evs[1..], w))
  }

  function Run(b: Box, evs: seq<Event>, w: World): Box
    decreases |evs|
  {
    if evs == [] then b else Run(Apply(b, evs[0], w), evs[1..], w)
  }
}
