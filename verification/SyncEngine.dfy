/** The engine as it runs: tables updated in place, one message and one row at a time. Every
    method is proved against Replicas, where the properties are. */
module SyncEngine {
  import opened Prelude
  import opened SyncProtocol
  import opened ItemMerge
  import opened ShareState
  import opened Replicas

  class Engine {
    const instance: string
    const peerName: string
    const projectId: string
    var project: ProjectPayload
    var items: map<string, Item>
    var activity: map<string, ActivityRow>
    var states: map<Key, SyncState>
    var notes: seq<Note>
    var changes: int   // how often OnChange fired

    constructor (instance: string, peerName: string, projectId: string, project: ProjectPayload)
      ensures View() == Replica(instance, peerName, projectId, project, map[], map[], map[], [])
      ensures changes == 0
    {
      this.instance, this.peerName, this.projectId := instance, peerName, projectId;
      this.project, items, activity, states, notes := project, map[], map[], map[], [];
      changes := 0;
    }

    ghost function View(): Replica
      reads this
    {
      Replica(instance, peerName, projectId, project, items, activity, states, notes)
    }

    // ---- the state table ----

    method RecordApplied(k: Key, h: Hash)
      modifies this`states
      ensures states == old(states)[k := SyncState(h, h)]
    {
      states := states[k := SyncState(h, h)];
    }

    method RecordMergedBase(k: Key, h: Hash)
      modifies this`states
      ensures states == old(states)[k := StateOf(old(states), k).(base := h)]
    {
      if k in states {
        states := states[k := states[k].(base := h)];
      } else {
        states := states[k := SyncState(NoHash, h)];
      }
    }

    method RecordSent(k: Key, h: Hash)
      modifies this`states
      ensures states == old(states)[k := StateOf(old(states), k).(sent := h)]
    {
      if k in states {
        states := states[k := states[k].(sent := h)];
      } else {
        states := states[k := SyncState(h, NoHash)];
      }
    }

    // ---- inbound ----

    method UpsertSyncedItem(p: ItemPayload) returns (saved: Item)
      modifies this`items
      ensures items == old(items)[p.id := saved]
      ensures saved == if p.id in old(items) then UpdateRow(old(items)[p.id], p) else InsertRow(projectId, p)
    {
      if p.id in items {
        saved := UpdateRow(items[p.id], p);
      } else {
        saved := InsertRow(projectId, p);
      }
      items := items[p.id := saved];
    }

    method LogConflict(local: Item, merged: ItemPayload)
      modifies this`notes
      ensures notes == old(notes) + ConflictNote(peerName, local, merged)
    {
      var list: seq<Change> := [];
      if local.status != merged.status {
        list := list + [Change(Status, local.status, merged.status)];
      }
      if local.priority != merged.priority {
        list := list + [Change(Priority, local.priority, merged.priority)];
      }
      if local.title != merged.title {
        list := list + [Change(Title, local.title, merged.title)];
      }
      assert list == Changes(PayloadOf(local), merged);
      if |list| == 0 {
        return;
      }
      var peer := peerName;
      if peer == "" {
        peer := "the other instance";
      }
      notes := notes + [Note(local.projectId, local.id, peer, list)];
    }

    method ApplyItem(origin: string, payload: ItemPayload)
      modifies this
      ensures View() == ReceiveItem(old(View()), origin, payload)
      ensures changes == old(changes)
    {
      var remote := payload;
      var merged := false;
      var key := Key(ItemKind, payload.id);
      if payload.id in items {
        var local := items[payload.id];
        var st := StateOf(states, key);
        if ItemHash(local) != st.base {
          merged := true;
          remote := MergeConflict(instance, origin, PayloadOf(local), payload);
          LogConflict(local, remote);
        }
      }
      assert remote.id == payload.id;
      var saved := UpsertSyncedItem(remote);
      assert saved == StoreRow(ItemCell(old(View()), payload.id), Delivery(instance, origin, projectId, payload));
      if merged {
        RecordMergedBase(key, ItemHash(saved));
      } else {
        RecordApplied(key, ItemHash(saved));
      }
    }

    method ApplyActivity(remote: ActivityPayload)
      modifies this
      ensures View() == ReceiveActivity(old(View()), remote)
      ensures changes == old(changes)
    {
      var itemId: Option<string> := None;
      if remote.itemId.Some? {
        if remote.itemId.value in items {
          itemId := remote.itemId;
        }
      }
      if remote.id !in activity {
        activity := activity[remote.id :=
          ActivityRow(remote.id, projectId, itemId, remote.kind, remote.actor, remote.body,
                      remote.confidence, OrEmptyJson(remote.metadata), remote.createdAt)];
      }
      RecordApplied(Key(ActivityKind, remote.id), ContentHash(ActivityBody(remote)));
    }

    method ApplyProject(remote: ProjectPayload)
      modifies this
      ensures View() == ReceiveProject(old(View()), remote)
      ensures changes == old(changes)
    {
      project := ProjectPayload(remote.name, remote.summary, remote.instructions);
      RecordApplied(Key(ProjectKind, projectId), ContentHash(ProjectBody(project)));
    }

    /** One opened, foreign message. fault: the database fails on it. */
    method ApplyMessage(origin: string, payload: Payload, fault: bool) returns (ok: bool)
      requires origin != instance
      modifies this
      ensures ok == Handle(old(View()), Opened(origin, payload), fault).Some?
      ensures View() == if ok then Handle(old(View()), Opened(origin, payload), fault).value else old(View())
      ensures changes == old(changes)
    {
      match payload {
        case UnknownKind => return true;
        case Malformed => return false;
        case ItemBody(item) =>
          if fault { return false; }
          ApplyItem(origin, item);
        case ActivityBody(act) =>
          if fault { return false; }
          ApplyActivity(act);
        case ProjectBody(proj) =>
          if fault { return false; }
          ApplyProject(proj);
      }
      ok := true;
    }

    /** Apply a batch; done is what the loop got through, and is acked only if finished. OnChange
        fires when the ack went through and something foreign was in the batch. */
    method PullInbound(msgs: seq<Mail>, faults: set<int>, ackGoesThrough: bool)
      returns (done: seq<int>, finished: bool)
      modifies this
      ensures Progress(View(), done, finished) == PullBatch(old(View()), msgs, faults)
      ensures changes == old(changes) + (if finished && ackGoesThrough && Foreign(instance, msgs) then 1 else 0)
    {
      done, finished := [], true;
      if |msgs| == 0 {
        return;
      }
      var changed := false;
      var i := 0;
      assert msgs[0..] == msgs;
      ghost var whole := PullBatch(View(), msgs, faults);
      while i < |msgs|
        invariant 0 <= i <= |msgs|
        invariant changes == old(changes) && finished
        invariant changed <==> Foreign(instance, msgs[..i])
        invariant whole == After(done, PullBatch(View(), msgs[i..], faults))
      {
        var m := msgs[i];
        PullStep(View(), msgs, i, faults, done);
        ForeignSnoc(instance, msgs, i);
        if m.body.Undecryptable? || m.body.origin == instance {
          // unreadable, or an echo of ours: counts as dealt with
        } else {
          var ok := ApplyMessage(m.body.origin, m.body.payload, m.no in faults);
          if !ok {
            return done, false;
          }
          changed := true;
        }
        done := done + [m.no];
        i := i + 1;
      }
      assert msgs[..i] == msgs && msgs[i..] == [];
      if changed && ackGoesThrough {
        changes := changes + 1;
      }
    }

    // ---- outbound ----

    /** Send every row of the project whose content is not what was last sent, stopping at the first
        message the mailbox refuses: the project row, the items, the activity. */
    method PushOutbound(itemIds: seq<string>, activityIds: seq<string>, room: nat)
      returns (out: seq<Payload>, ok: bool)
      requires ListsAll(View(), itemIds, activityIds)
      modifies this`states
      ensures (states, out, ok) == PushRows(old(states), Listing(old(View()), itemIds, activityIds), room)
      ensures ok ==> AllSent(View())
      ensures Keyed(View()) && ActivityKeyed(View()) ==>
                exists due :: Carries(old(View()), due) && out == FirstOf(due, room) && (ok <==> |due| <= room)
    {
      ListingDistinct(View(), itemIds, activityIds);
      ghost var due := PassReachesEveryRow(View(), itemIds, activityIds, room);
      var rows := Listing(Replica(instance, peerName, projectId, project, items, activity, states, notes),
                          itemIds, activityIds);
      out, ok := SendRows(rows, room);
    }

    /** The send closure, called on one row after the other. */
    method SendRows(rows: seq<Row>, room: nat) returns (out: seq<Payload>, ok: bool)
      requires DistinctKeys(rows)
      modifies this`states
      ensures (states, out, ok) == PushRows(old(states), rows, room)
    {
      var sentHashes := states;   // read once, before the loop
      out := [];
      var i := 0;
      assert rows[0..] == rows;
      assert [] + PushRows(states, rows, room).1 == PushRows(states, rows, room).1;
      while i < |rows|
        invariant 0 <= i <= |rows| && |out| <= room
        invariant forall j :: i <= j < |rows| ==> StateOf(states, rows[j].key) == StateOf(sentHashes, rows[j].key)
        invariant PushRows(old(states), rows, room)
                  == var (st, o, k) := PushRows(states, rows[i..], room - |out|); (st, out + o, k)
      {
        assert rows[i..][0] == rows[i] && rows[i..][1..] == rows[i + 1..];
        var h := ContentHash(rows[i].content);
        if StateOf(sentHashes, rows[i].key).sent != h {
          if |out| == room {
            assert out + [] == out;
            return out, false;
          }
          ghost var before := states;
          ghost var o := PushRows(before[rows[i].key := StateOf(before, rows[i].key).(sent := h)],
                                  rows[i + 1..], room - |out| - 1).1;
          assert out + ([rows[i].content] + o) == (out + [rows[i].content]) + o;
          out := out + [rows[i].content];
          RecordSent(rows[i].key, h);
        }
        i := i + 1;
      }
      assert rows[i..] == [] && out + [] == out;
      ok := true;
    }
  }

  /** The outcome of a batch of which these messages were dealt with before. */
  function After(done: seq<int>, p: Progress): Progress { p.(done := done + p.done) }

  lemma PullStep(r: Replica, msgs: seq<Mail>, i: nat, faults: set<int>, done: seq<int>)
    requires i < |msgs|
    ensures var p := After(done, PullBatch(r, msgs[i..], faults));
            match Handle(r, msgs[i].body, msgs[i].no in faults)
            case None => p == Progress(r, done, false)
            case Some(r') => p == After(done + [msgs[i].no], PullBatch(r', msgs[i + 1..], faults))
  {
    assert msgs[i..][0] == msgs[i] && msgs[i..][1..] == msgs[i + 1..];
    match Handle(r, msgs[i].body, msgs[i].no in faults) {
      case None => assert done + [] == done;
      case Some(r') =>
        var rest := PullBatch(r', msgs[i + 1..], faults).done;
        assert done + ([msgs[i].no] + rest) == (done + [msgs[i].no]) + rest;
    }
  }

  lemma ForeignSnoc(instance: string, msgs: seq<Mail>, i: nat)
    requires i < |msgs|
    ensures Foreign(instance, msgs[..i + 1])
            <==> Foreign(instance, msgs[..i]) || (msgs[i].body.Opened? && msgs[i].body.origin != instance)
  {
    assert msgs[..i + 1] == msgs[..i] + [msgs[i]];
    if Foreign(instance, msgs[..i]) {
      var k :| 0 <= k < i && msgs[..i][k].body.Opened? && msgs[..i][k].body.origin != instance;
      assert msgs[..i + 1][k] == msgs[..i][k];
    }
    assert msgs[..i + 1][i] == msgs[i];
  }

  /** Some message of the batch was neither undecryptable nor our own. */
  predicate Foreign(instance: string, msgs: seq<Mail>) {
    exists i :: 0 <= i < |msgs| && msgs[i].body.Opened? && msgs[i].body.origin != instance
  }
}
