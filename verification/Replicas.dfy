/** One instance's side of a share as a value: its tables, and what each arriving message or
    outbound pass makes of them. */
module Replicas {
  import opened Prelude
  import opened SyncProtocol
  import opened ItemMerge
  import opened ShareState

  datatype Kind = ItemKind | ActivityKind | ProjectKind

  datatype Key = Key(kind: Kind, id: string)

  /** A row of project_share_state. */
  datatype SyncState = SyncState(sent: Hash, base: Hash)

  datatype ActivityRow = ActivityRow(
    id: string, projectId: string, itemId: Option<string>, kind: string, actor: string, body: string,
    confidence: string, metadata: Json, createdAt: int)

  function ActivityContent(a: ActivityRow): ActivityPayload {
    ActivityPayload(a.id, a.itemId, a.kind, a.actor, a.body, a.confidence, OrEmptyJson(a.metadata), a.createdAt)
  }

  datatype Replica = Replica(
    instance: string, peerName: string, projectId: string,
    project: ProjectPayload, items: map<string, Item>, activity: map<string, ActivityRow>,
    states: map<Key, SyncState>, notes: seq<Note>)

  /** Item rows are filed under their id and in the shared project. */
  ghost predicate Keyed(r: Replica) {
    forall id :: id in r.items ==> r.items[id].id == id && r.items[id].projectId == r.projectId
  }

  ghost predicate ActivityKeyed(r: Replica) { forall id :: id in r.activity ==> r.activity[id].id == id }

  /** A missing state row reads as two empty hashes. */
  function StateOf(states: map<Key, SyncState>, k: Key): SyncState {
    if k in states then states[k] else SyncState(NoHash, NoHash)
  }

  function ItemCell(r: Replica, id: string): Cell {
    var st := StateOf(r.states, Key(ItemKind, id));
    Cell(if id in r.items then Some(r.items[id]) else None, st.sent, st.base)
  }

  // ---- receiving ----

  function ReceiveItem(r: Replica, origin: string, remote: ItemPayload): Replica {
    var c := ItemCell(r, remote.id);
    var d := Delivery(r.instance, origin, r.projectId, remote);
    var c' := Apply(c, d);
    r.(items := r.items[remote.id := c'.row.value],
       states := r.states[Key(ItemKind, remote.id) := SyncState(c'.sent, c'.base)],
       notes := r.notes + ApplyNotes(c, d, r.peerName))
  }

  /** The activity row a payload is stored as: attached to its item only if the item is here. */
  function StoreActivity(projectId: string, items: set<string>, remote: ActivityPayload): ActivityRow {
    ActivityRow(remote.id, projectId,
                if remote.itemId.Some? && remote.itemId.value in items then remote.itemId else None,
                remote.kind, remote.actor, remote.body, remote.confidence,
                OrEmptyJson(remote.metadata), remote.createdAt)
  }

  /** applyActivity: ON CONFLICT DO NOTHING, then record what arrived, not what is stored. */
  function ReceiveActivity(r: Replica, remote: ActivityPayload): Replica {
    var h := ContentHash(ActivityBody(remote));
    r.(activity := if remote.id in r.activity then r.activity
                   else r.activity[remote.id := StoreActivity(r.projectId, r.items.Keys, remote)],
       states := r.states[Key(ActivityKind, remote.id) := SyncState(h, h)])
  }

  function ReceiveProject(r: Replica, remote: ProjectPayload): Replica {
    var h := ContentHash(ProjectBody(remote));
    r.(project := remote, states := r.states[Key(ProjectKind, r.projectId) := SyncState(h, h)])
  }

  /** A received message. fault says that the database fails while it is being applied. */
  function Handle(r: Replica, sealed: Sealed, fault: bool): Option<Replica> {
    match sealed
    case Undecryptable => Some(r)
    case Opened(origin, payload) =>
      if origin == r.instance then Some(r)
      else match payload
        case UnknownKind => Some(r)
        case Malformed => None
        case ItemBody(item) => if fault then None else Some(ReceiveItem(r, origin, item))
        case ActivityBody(act) => if fault then None else Some(ReceiveActivity(r, act))
        case ProjectBody(proj) => if fault then None else Some(ReceiveProject(r, proj))
  }

  datatype Mail = Mail(no: int, body: Sealed)

  /** How far a batch got: the replica, the messages dealt with in order, and whether the batch
      was finished. Only a finished batch is acked. */
  datatype Progress = Progress(replica: Replica, done: seq<int>, finished: bool)

  /** pullInbound over one batch. */
  function PullBatch(r: Replica, msgs: seq<Mail>, faults: set<int>): Progress
    decreases |msgs|
  {
    if msgs == [] then Progress(r, [], true)
    else
      match Handle(r, msgs[0].body, msgs[0].no in faults)
      case None => Progress(r, [], false)
      case Some(r') =>
        var rest := PullBatch(r', msgs[1..], faults);
        rest.(done := [msgs[0].no] + rest.done)
  }

  function Numbers(msgs: seq<Mail>): seq<int> { seq(|msgs|, i requires 0 <= i < |msgs| => msgs[i].no) }

  /** A message this replica can never apply: decodable, foreign, and broken inside. */
  predicate Poison(instance: string, sealed: Sealed) {
    sealed.Opened? && sealed.origin != instance && sealed.payload.Malformed?
  }

  /** A message the receiver drops on purpose. */
  predicate Discarded(instance: string, sealed: Sealed) {
    sealed.Undecryptable? || sealed.origin == instance || sealed.payload.UnknownKind?
  }

  /** Whether this message stops the batch. */
  predicate Blocks(instance: string, m: Mail, faults: set<int>) {
    !Discarded(instance, m.body) && (Poison(instance, m.body) || m.no in faults)
  }

  predicate Blocked(instance: string, msgs: seq<Mail>, faults: set<int>) {
    exists i :: 0 <= i < |msgs| && Blocks(instance, msgs[i], faults)
  }

  /** A batch is finished exactly when no message blocks it; what it dealt with is the whole
      batch then, and otherwise the part before the first blocking message. */
  lemma {:induction false} BatchProgress(r: Replica, msgs: seq<Mail>, faults: set<int>)
    ensures PullBatch(r, msgs, faults).replica.instance == r.instance
    ensures Progressed(r.instance, msgs, faults, PullBatch(r, msgs, faults))
    decreases |msgs|
  {
    if msgs == [] {
      assert Numbers(msgs) == [];
    } else {
      var h := Handle(r, msgs[0].body, msgs[0].no in faults);
      assert h.None? <==> Blocks(r.instance, msgs[0], faults);
      if h.Some? {
        BatchProgress(h.value, msgs[1..], faults);
        ProgressCons(r.instance, msgs, faults, PullBatch(h.value, msgs[1..], faults));
      } else {
        assert Numbers(msgs[..0]) == [];
      }
    }
  }

  /** A batch finishes exactly when nothing in it blocks; what was dealt with is what comes before
      the first message that blocks. */
  predicate Progressed(instance: string, msgs: seq<Mail>, faults: set<int>, p: Progress) {
    && (p.finished <==> !Blocked(instance, msgs, faults))
    && (p.finished ==> p.done == Numbers(msgs))
    && |p.done| <= |msgs| && p.done == Numbers(msgs[..|p.done|])
    && !Blocked(instance, msgs[..|p.done|], faults)
    && (!p.finished ==> |p.done| < |msgs| && Blocks(instance, msgs[|p.done|], faults))
  }

  lemma ProgressCons(instance: string, msgs: seq<Mail>, faults: set<int>, rest: Progress)
    requires msgs != [] && !Blocks(instance, msgs[0], faults)
    requires Progressed(instance, msgs[1..], faults, rest)
    ensures Progressed(instance, msgs, faults, rest.(done := [msgs[0].no] + rest.done))
  {
    var part := msgs[..|rest.done| + 1];
    assert part[1..] == msgs[1..][..|rest.done|];
  }

  /** Messages about other rows leave an item alone, and messages about it act on its cell alone. */
  lemma ReceiveTouchesOneItem(r: Replica, origin: string, remote: ItemPayload, id: string)
    ensures var r' := ReceiveItem(r, origin, remote);
            ItemCell(r', id) == if id == remote.id
                                then Apply(ItemCell(r, id), Delivery(r.instance, origin, r.projectId, remote))
                                else ItemCell(r, id)
    ensures forall act :: ItemCell(ReceiveActivity(r, act), id) == ItemCell(r, id)
    ensures forall proj :: ItemCell(ReceiveProject(r, proj), id) == ItemCell(r, id)
  {
  }

  // ---- conflict notes ----

  /** The note is about this row and this peer, and lists exactly the title, status and priority that
      changed from own to stored, each once, with both values. */
  ghost predicate Records(n: Note, row: Item, peerName: string, own: ItemPayload, stored: ItemPayload) {
    && n.itemId == row.id && n.projectId == row.projectId
    && n.peer == (if peerName == "" then "the other instance" else peerName)
    && (forall ch :: ch in n.changes <==>
          || (ch == Change(Status, own.status, stored.status) && own.status != stored.status)
          || (ch == Change(Priority, own.priority, stored.priority) && own.priority != stored.priority)
          || (ch == Change(Title, own.title, stored.title) && own.title != stored.title))
    && forall i, j :: 0 <= i < j < |n.changes| ==> n.changes[i].field != n.changes[j].field
  }

  predicate ScalarsMoved(own: ItemPayload, stored: ItemPayload) {
    own.title != stored.title || own.status != stored.status || own.priority != stored.priority
  }

  /** Receiving an item writes one note, saying just that, when the row had been edited and its title,
      status or priority gives way; otherwise it writes none. No note is ever taken back. */
  lemma NoteOnDisplacement(r: Replica, origin: string, remote: ItemPayload)
    ensures var r' := ReceiveItem(r, origin, remote);
            && remote.id in r'.items
            && (remote.id in r.items && Dirty(ItemCell(r, remote.id))
                && ScalarsMoved(PayloadOf(r.items[remote.id]), PayloadOf(r'.items[remote.id])) ==>
                  && |r'.notes| == |r.notes| + 1 && r.notes <= r'.notes
                  && Records(r'.notes[|r.notes|], r.items[remote.id], r.peerName,
                             PayloadOf(r.items[remote.id]), PayloadOf(r'.items[remote.id])))
            && (!(remote.id in r.items && Dirty(ItemCell(r, remote.id))
                  && ScalarsMoved(PayloadOf(r.items[remote.id]), PayloadOf(r'.items[remote.id]))) ==>
                  r'.notes == r.notes)
  {
    var c := ItemCell(r, remote.id);
    if Dirty(c) {
      var merged := MergeConflict(r.instance, origin, ContentOf(c), remote);
      NoteRecords(r.peerName, c.row.value, merged);
    }
  }

  lemma NoteRecords(peerName: string, row: Item, merged: ItemPayload)
    ensures var own := PayloadOf(row);
            if ScalarsMoved(own, merged)
            then |ConflictNote(peerName, row, merged)| == 1
                 && Records(ConflictNote(peerName, row, merged)[0], row, peerName, own, merged)
            else ConflictNote(peerName, row, merged) == []
  {
  }

  lemma NotesOnlyGrow(r: Replica, sealed: Sealed, fault: bool)
    requires Handle(r, sealed, fault).Some?
    ensures r.notes <= Handle(r, sealed, fault).value.notes
  {
    if sealed.Opened? && sealed.payload.ItemBody? { NoteOnDisplacement(r, sealed.origin, sealed.payload.item); }
  }

  // ---- sending ----

  datatype Row = Row(key: Key, content: Payload)

  function ItemRows(r: Replica, ids: seq<string>): seq<Row>
    requires forall i :: 0 <= i < |ids| ==> ids[i] in r.items
  {
    seq(|ids|, i requires 0 <= i < |ids| => Row(Key(ItemKind, ids[i]), ItemBody(PayloadOf(r.items[ids[i]]))))
  }

  function ActivityRows(r: Replica, ids: seq<string>): seq<Row>
    requires forall i :: 0 <= i < |ids| ==> ids[i] in r.activity
  {
    seq(|ids|, i requires 0 <= i < |ids| =>
      Row(Key(ActivityKind, ids[i]), ActivityBody(ActivityContent(r.activity[ids[i]]))))
  }

  /** What pushOutbound goes through: the project, then its items, deleted ones included, as the
      database lists them, then its activity. */
  function Listing(r: Replica, itemIds: seq<string>, activityIds: seq<string>): seq<Row>
    requires forall i :: 0 <= i < |itemIds| ==> itemIds[i] in r.items
    requires forall i :: 0 <= i < |activityIds| ==> activityIds[i] in r.activity
  {
    [Row(Key(ProjectKind, r.projectId), ProjectBody(r.project))] + ItemRows(r, itemIds) + ActivityRows(r, activityIds)
  }

  predicate DistinctIds(ids: seq<string>) { forall i, j :: 0 <= i < j < |ids| ==> ids[i] != ids[j] }

  /** The two queries' answers: every item and every activity row of the project once, activity by
      creation time. */
  ghost predicate ListsAll(r: Replica, itemIds: seq<string>, activityIds: seq<string>) {
    && DistinctIds(itemIds) && DistinctIds(activityIds)
    && (forall i :: 0 <= i < |itemIds| ==> itemIds[i] in r.items)
    && (forall id :: id in itemIds <==> id in r.items && r.items[id].projectId == r.projectId)
    && (forall i :: 0 <= i < |activityIds| ==> activityIds[i] in r.activity)
    && (forall id :: id in activityIds <==> id in r.activity && r.activity[id].projectId == r.projectId)
    && forall i, j :: 0 <= i < j < |activityIds| ==>
         r.activity[activityIds[i]].createdAt <= r.activity[activityIds[j]].createdAt
  }

  /** pushOutbound over the listed rows, with the mailbox taking room messages before a send
      fails: the states it leaves, what went out, and whether the pass completed. */
  function PushRows(states: map<Key, SyncState>, rows: seq<Row>, room: nat): (map<Key, SyncState>, seq<Payload>, bool)
    decreases |rows|
  {
    if rows == [] then (states, [], true)
    else
      var k, h := rows[0].key, ContentHash(rows[0].content);
      if StateOf(states, k).sent == h then PushRows(states, rows[1..], room)
      else if room == 0 then (states, [], false)
      else
        var (states', out, ok) := PushRows(states[k := StateOf(states, k).(sent := h)], rows[1..], room - 1);
        (states', [rows[0].content] + out, ok)
  }

  predicate DistinctKeys(rows: seq<Row>) { forall i, j :: 0 <= i < j < |rows| ==> rows[i].key != rows[j].key }

  /** The rows whose content differs from what was last sent. */
  function Pending(states: map<Key, SyncState>, rows: seq<Row>): seq<Payload> {
    if rows == [] then []
    else if StateOf(states, rows[0].key).sent == ContentHash(rows[0].content) then Pending(states, rows[1..])
    else [rows[0].content] + Pending(states, rows[1..])
  }

  lemma {:induction false} PendingFrame(states: map<Key, SyncState>, k: Key, st: SyncState, rows: seq<Row>)
    requires forall i :: 0 <= i < |rows| ==> rows[i].key != k
    ensures Pending(states[k := st], rows) == Pending(states, rows)
  {
    if rows != [] { PendingFrame(states, k, st, rows[1..]); }
  }

  /** A pass touches no base and no row that is not listed. */
  lemma {:induction false} PushFrame(states: map<Key, SyncState>, rows: seq<Row>, room: nat, k: Key)
    ensures var st := StateOf(PushRows(states, rows, room).0, k);
            && st.base == StateOf(states, k).base
            && ((forall i :: 0 <= i < |rows| ==> rows[i].key != k) ==> st == StateOf(states, k))
    decreases |rows|
  {
    if rows != [] {
      var first, h := rows[0].key, ContentHash(rows[0].content);
      if StateOf(states, first).sent == h {
        PushFrame(states, rows[1..], room, k);
      } else if room > 0 {
        PushFrame(states[first := StateOf(states, first).(sent := h)], rows[1..], room - 1, k);
      }
    }
  }

  function FirstOf(s: seq<Payload>, n: nat): seq<Payload> { if n < |s| then s[..n] else s }

  /** An outbound pass sends the first room pending rows in order and completes exactly when that
      is all of them. */
  lemma {:induction false} PushSendsPending(states: map<Key, SyncState>, rows: seq<Row>, room: nat)
    requires DistinctKeys(rows)
    ensures var (_, out, ok) := PushRows(states, rows, room);
            var due := Pending(states, rows);
            out == FirstOf(due, room) && (ok <==> |due| <= room)
    decreases |rows|
  {
    if rows != [] {
      var k, h := rows[0].key, ContentHash(rows[0].content);
      if StateOf(states, k).sent == h {
        PushSendsPending(states, rows[1..], room);
      } else if room > 0 {
        var st := StateOf(states, k).(sent := h);
        PendingFrame(states, k, st, rows[1..]);
        PushSendsPending(states[k := st], rows[1..], room - 1);
      }
    }
  }

  /** And when it completes, every listed row is recorded as sent. */
  lemma {:induction false} PushRecords(states: map<Key, SyncState>, rows: seq<Row>, room: nat, i: nat)
    requires DistinctKeys(rows) && i < |rows| && PushRows(states, rows, room).2
    ensures StateOf(PushRows(states, rows, room).0, rows[i].key).sent == ContentHash(rows[i].content)
    decreases |rows|
  {
    var k, h := rows[0].key, ContentHash(rows[0].content);
    var next := if StateOf(states, k).sent == h then states else states[k := StateOf(states, k).(sent := h)];
    var left := if StateOf(states, k).sent == h then room else room - 1;
    if i == 0 { PushFrame(next, rows[1..], left, k); } else { PushRecords(next, rows[1..], left, i - 1); }
  }

  /** A completed pass is Push on every item cell it lists. */
  lemma CompletePushPushesItem(r: Replica, rows: seq<Row>, room: nat, id: string)
    requires DistinctKeys(rows) && id in r.items
    requires Row(Key(ItemKind, id), ItemBody(PayloadOf(r.items[id]))) in rows
    requires PushRows(r.states, rows, room).2
    ensures ItemCell(r.(states := PushRows(r.states, rows, room).0), id) == Push(ItemCell(r, id))
  {
    PushFrame(r.states, rows, room, Key(ItemKind, id));
    var row := Row(Key(ItemKind, id), ItemBody(PayloadOf(r.items[id])));
    var i :| 0 <= i < |rows| && rows[i] == row;
    PushRecords(r.states, rows, room, i);
  }

  // ---- what a pass comes to, table by table ----

  predicate ProjectDue(r: Replica) {
    StateOf(r.states, Key(ProjectKind, r.projectId)).sent != ContentHash(ProjectBody(r.project))
  }

  predicate ItemDue(r: Replica, id: string) {
    && id in r.items && r.items[id].projectId == r.projectId
    && StateOf(r.states, Key(ItemKind, id)).sent != ItemHash(r.items[id])
  }

  predicate ActivityDue(r: Replica, id: string) {
    && id in r.activity && r.activity[id].projectId == r.projectId
    && StateOf(r.states, Key(ActivityKind, id)).sent != ContentHash(ActivityBody(ActivityContent(r.activity[id])))
  }

  /** No row of the share, of any kind, has anything to send. */
  ghost predicate AllSent(r: Replica) {
    !ProjectDue(r) && forall id :: !ItemDue(r, id) && !ActivityDue(r, id)
  }

  function Rank(p: Payload): int {
    if p.ProjectBody? then 0 else if p.ItemBody? then 1 else 2
  }

  /** The messages carry each due row of the share once and nothing else: the project first, then the
      items, then the activity by creation time. */
  ghost predicate Carries(r: Replica, out: seq<Payload>) {
    && (ProjectDue(r) <==> ProjectBody(r.project) in out)
    && (forall id :: ItemDue(r, id) ==> ItemBody(PayloadOf(r.items[id])) in out)
    && (forall id :: ActivityDue(r, id) ==> ActivityBody(ActivityContent(r.activity[id])) in out)
    && (forall p :: p in out ==> FromTables(r, p))
    && (forall i, j :: 0 <= i < j < |out| ==> out[i] != out[j])
    && (forall i, j :: 0 <= i < j < |out| ==> Rank(out[i]) <= Rank(out[j]))
    && (forall i, j :: 0 <= i < j < |out| && out[i].ActivityBody? && out[j].ActivityBody? ==>
          out[i].act.createdAt <= out[j].act.createdAt)
  }

  ghost predicate FromTables(r: Replica, p: Payload) {
    match p
    case ProjectBody(_) => ProjectDue(r) && p == ProjectBody(r.project)
    case ItemBody(_) => exists id :: ItemDue(r, id) && p == ItemBody(PayloadOf(r.items[id]))
    case ActivityBody(_) => exists id :: ActivityDue(r, id) && p == ActivityBody(ActivityContent(r.activity[id]))
    case _ => false
  }

  predicate RowDue(states: map<Key, SyncState>, row: Row) { StateOf(states, row.key).sent != ContentHash(row.content) }

  lemma {:induction false} PendingIn(states: map<Key, SyncState>, rows: seq<Row>, p: Payload)
    ensures p in Pending(states, rows) <==> exists i :: 0 <= i < |rows| && RowDue(states, rows[i]) && rows[i].content == p
  {
    if rows != [] {
      PendingIn(states, rows[1..], p);
      if i :| 0 <= i < |rows[1..]| && RowDue(states, rows[1..][i]) && rows[1..][i].content == p {
        assert rows[i + 1] == rows[1..][i];
      }
      if i :| 0 <= i < |rows| && RowDue(states, rows[i]) && rows[i].content == p {
        assert i > 0 ==> rows[1..][i - 1] == rows[i];
      }
    }
  }

  /** Of two messages of a pass, the first one: they differ, and project, items and activity come in
      that order, activity by creation time. */
  predicate GoesBefore(p: Payload, q: Payload) {
    && p != q && Rank(p) <= Rank(q)
    && (p.ActivityBody? && q.ActivityBody? ==> p.act.createdAt <= q.act.createdAt)
  }

  predicate RowsInOrder(rows: seq<Row>) {
    forall i, j :: 0 <= i < j < |rows| ==> GoesBefore(rows[i].content, rows[j].content)
  }

  lemma {:induction false} PendingInOrder(states: map<Key, SyncState>, rows: seq<Row>)
    requires RowsInOrder(rows)
    ensures forall i, j :: 0 <= i < j < |Pending(states, rows)| ==>
              GoesBefore(Pending(states, rows)[i], Pending(states, rows)[j])
  {
    if rows != [] {
      var rest := rows[1..];
      assert forall i :: 0 <= i < |rest| ==> rest[i] == rows[i + 1];
      PendingInOrder(states, rest);
      forall q | q in Pending(states, rest) ensures GoesBefore(rows[0].content, q) {
        PendingIn(states, rest, q);
      }
    }
  }

  lemma ListingRows(r: Replica, itemIds: seq<string>, activityIds: seq<string>)
    requires ListsAll(r, itemIds, activityIds)
    ensures var rows := Listing(r, itemIds, activityIds);
            var n := |itemIds|;
            && |rows| == 1 + n + |activityIds|
            && rows[0] == Row(Key(ProjectKind, r.projectId), ProjectBody(r.project))
            && (forall i :: 1 <= i <= n ==>
                  rows[i] == Row(Key(ItemKind, itemIds[i - 1]), ItemBody(PayloadOf(r.items[itemIds[i - 1]]))))
            && (forall i :: n < i < |rows| ==>
                  rows[i] == Row(Key(ActivityKind, activityIds[i - n - 1]),
                                 ActivityBody(ActivityContent(r.activity[activityIds[i - n - 1]]))))
  {
    var rows, n := Listing(r, itemIds, activityIds), |itemIds|;
    assert forall i :: 1 <= i <= n ==> rows[i] == ItemRows(r, itemIds)[i - 1];
    assert forall i :: n < i < |rows| ==> rows[i] == ActivityRows(r, activityIds)[i - n - 1];
  }

  lemma ListingDistinct(r: Replica, itemIds: seq<string>, activityIds: seq<string>)
    requires ListsAll(r, itemIds, activityIds)
    ensures DistinctKeys(Listing(r, itemIds, activityIds))
  {
    ListingRows(r, itemIds, activityIds);
  }

  lemma ListingInOrder(r: Replica, itemIds: seq<string>, activityIds: seq<string>)
    requires Keyed(r) && ActivityKeyed(r) && ListsAll(r, itemIds, activityIds)
    ensures RowsInOrder(Listing(r, itemIds, activityIds))
  {
    var rows, n := Listing(r, itemIds, activityIds), |itemIds|;
    ListingRows(r, itemIds, activityIds);
    forall i, j | 0 <= i < j < |rows| ensures GoesBefore(rows[i].content, rows[j].content) {
      if 1 <= i && j <= n { assert itemIds[i - 1] != itemIds[j - 1]; }
      if n < i { assert activityIds[i - n - 1] != activityIds[j - n - 1]; }
    }
  }

  /** A row of the tables is listed, and only such rows are. */
  lemma ListedItem(r: Replica, itemIds: seq<string>, activityIds: seq<string>, id: string) returns (i: nat)
    requires ListsAll(r, itemIds, activityIds) && id in r.items && r.items[id].projectId == r.projectId
    ensures var rows := Listing(r, itemIds, activityIds);
            i < |rows| && rows[i] == Row(Key(ItemKind, id), ItemBody(PayloadOf(r.items[id])))
  {
    ListingRows(r, itemIds, activityIds);
    assert id in itemIds;
    var k :| 0 <= k < |itemIds| && itemIds[k] == id;
    i := k + 1;
  }

  lemma ListedActivity(r: Replica, itemIds: seq<string>, activityIds: seq<string>, id: string) returns (i: nat)
    requires ListsAll(r, itemIds, activityIds) && id in r.activity && r.activity[id].projectId == r.projectId
    ensures var rows := Listing(r, itemIds, activityIds);
            i < |rows| && rows[i] == Row(Key(ActivityKind, id), ActivityBody(ActivityContent(r.activity[id])))
  {
    ListingRows(r, itemIds, activityIds);
    assert id in activityIds;
    var k :| 0 <= k < |activityIds| && activityIds[k] == id;
    i := 1 + |itemIds| + k;
  }

  lemma ListedFromTables(r: Replica, itemIds: seq<string>, activityIds: seq<string>, i: nat)
    requires ListsAll(r, itemIds, activityIds) && i < |Listing(r, itemIds, activityIds)|
    requires RowDue(r.states, Listing(r, itemIds, activityIds)[i])
    ensures FromTables(r, Listing(r, itemIds, activityIds)[i].content)
  {
    var rows, n := Listing(r, itemIds, activityIds), |itemIds|;
    ListingRows(r, itemIds, activityIds);
    if 1 <= i <= n {
      var id := itemIds[i - 1];
      assert id in itemIds && ItemDue(r, id);
    } else if n < i {
      var id := activityIds[i - n - 1];
      assert id in activityIds && ActivityDue(r, id);
    }
  }

  lemma PendingFromTables(r: Replica, itemIds: seq<string>, activityIds: seq<string>)
    requires Keyed(r) && ActivityKeyed(r) && ListsAll(r, itemIds, activityIds)
    ensures Carries(r, Pending(r.states, Listing(r, itemIds, activityIds)))
  {
    var rows := Listing(r, itemIds, activityIds);
    var due := Pending(r.states, rows);
    ListingInOrder(r, itemIds, activityIds);
    PendingInOrder(r.states, rows);
    ListingRows(r, itemIds, activityIds);
    forall p | p in due ensures FromTables(r, p) {
      PendingIn(r.states, rows, p);
      var i :| 0 <= i < |rows| && RowDue(r.states, rows[i]) && rows[i].content == p;
      ListedFromTables(r, itemIds, activityIds, i);
    }
    PendingIn(r.states, rows, ProjectBody(r.project));
    assert ProjectDue(r) ==> RowDue(r.states, rows[0]);
    forall id | ItemDue(r, id) ensures ItemBody(PayloadOf(r.items[id])) in due {
      var i := ListedItem(r, itemIds, activityIds, id);
      PendingIn(r.states, rows, ItemBody(PayloadOf(r.items[id])));
    }
    forall id | ActivityDue(r, id) ensures ActivityBody(ActivityContent(r.activity[id])) in due {
      var i := ListedActivity(r, itemIds, activityIds, id);
      PendingIn(r.states, rows, ActivityBody(ActivityContent(r.activity[id])));
    }
  }

  /** An outbound pass over the tables: it carries every due row of the share once, in order, as far
      as there is room, and when it completes nothing of the share is left to send. */
  lemma PassReachesEveryRow(r: Replica, itemIds: seq<string>, activityIds: seq<string>, room: nat) returns (due: seq<Payload>)
    requires ListsAll(r, itemIds, activityIds)
    ensures var (states, out, ok) := PushRows(r.states, Listing(r, itemIds, activityIds), room);
            && out == FirstOf(due, room) && (ok <==> |due| <= room)
            && (Keyed(r) && ActivityKeyed(r) ==> Carries(r, due))
            && (ok ==> AllSent(r.(states := states)))
  {
    var rows := Listing(r, itemIds, activityIds);
    due := Pending(r.states, rows);
    ListingDistinct(r, itemIds, activityIds);
    PushSendsPending(r.states, rows, room);
    if Keyed(r) && ActivityKeyed(r) { PendingFromTables(r, itemIds, activityIds); }
    var (states, _, ok) := PushRows(r.states, rows, room);
    if ok { PassLeavesNothing(r, itemIds, activityIds, room); }
  }

  lemma PassLeavesNothing(r: Replica, itemIds: seq<string>, activityIds: seq<string>, room: nat)
    requires ListsAll(r, itemIds, activityIds) && PushRows(r.states, Listing(r, itemIds, activityIds), room).2
    ensures AllSent(r.(states := PushRows(r.states, Listing(r, itemIds, activityIds), room).0))
  {
    var rows := Listing(r, itemIds, activityIds);
    var after := r.(states := PushRows(r.states, rows, room).0);
    ListingRows(r, itemIds, activityIds);
    ListingDistinct(r, itemIds, activityIds);
    PushRecords(r.states, rows, room, 0);
    forall id ensures !ItemDue(after, id) && !ActivityDue(after, id) {
      if id in r.items && r.items[id].projectId == r.projectId {
        var i := ListedItem(r, itemIds, activityIds, id);
        PushRecords(r.states, rows, room, i);
      }
      if id in r.activity && r.activity[id].projectId == r.projectId {
        var i := ListedActivity(r, itemIds, activityIds, id);
        PushRecords(r.states, rows, room, i);
      }
    }
  }
}
