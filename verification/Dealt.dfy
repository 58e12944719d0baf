/** What the messages a receiver dealt with come to in its activity and project tables, field by field. */
module Dealt {
  import opened Prelude
  import opened SyncProtocol
  import opened Replicas
  import opened Threads
  import opened Courier

  predicate BringsActivity(instance: string, id: string, body: Sealed) {
    && body.Opened? && body.origin != instance
    && body.payload.ActivityBody? && body.payload.act.id == id
  }

  predicate BringsProject(instance: string, body: Sealed) {
    body.Opened? && body.origin != instance && body.payload.ProjectBody?
  }

  /** The row says what the payload says, filed in this project, on its item or on none. */
  predicate FiledAs(row: ActivityRow, act: ActivityPayload, project: string, attached: bool) {
    && row.id == act.id && row.projectId == project
    && row.itemId == (if attached then act.itemId else None)
    && row.kind == act.kind && row.actor == act.actor && row.body == act.body && row.confidence == act.confidence
    && row.metadata == (if act.metadata == "" then "{}" else act.metadata) && row.createdAt == act.createdAt
  }

  /** What is sent about a row and stored by the peer is the row again, its project apart. */
  lemma ActivityTravels(row: ActivityRow, project: string, items: set<string>)
    requires row.itemId.None? || row.itemId.value in items
    ensures StoreActivity(project, items, ActivityContent(row)) == row.(projectId := project)
  {
  }

  // ---- activity ----

  lemma {:induction false} StoredActivityStays(r: Replica, bodies: seq<Sealed>, id: string)
    requires ApplyAll(r, bodies).Some? && id in r.activity
    ensures var r' := ApplyAll(r, bodies).value; id in r'.activity && r'.activity[id] == r.activity[id]
    decreases |bodies|
  {
    if bodies != [] { StoredActivityStays(Handle(r, bodies[0], false).value, bodies[1..], id); }
  }

  /** One message: it files its own activity row, makes its own item known, and leaves the rest. */
  lemma HandledTables(r: Replica, body: Sealed, id: string)
    requires Handle(r, body, false).Some?
    ensures var r' := Handle(r, body, false).value;
            && r'.instance == r.instance && r'.projectId == r.projectId
            && (forall i :: i in r'.items <==> i in r.items || Concerns(r.instance, i, body))
            && (id in r'.activity <==> id in r.activity || BringsActivity(r.instance, id, body))
            && (BringsActivity(r.instance, id, body) && id !in r.activity ==>
                  var act := body.payload.act;
                  FiledAs(r'.activity[id], act, r.projectId, act.itemId.Some? && act.itemId.value in r.items))
  {
  }

  ghost predicate Known(r: Replica, bodies: seq<Sealed>, n: nat, item: string)
    requires n <= |bodies|
  {
    item in r.items || exists j :: 0 <= j < n && Concerns(r.instance, item, bodies[j])
  }

  lemma KnownTail(r: Replica, bodies: seq<Sealed>, n: nat, item: string)
    requires 0 < n <= |bodies| && Handle(r, bodies[0], false).Some?
    ensures Known(Handle(r, bodies[0], false).value, bodies[1..], n - 1, item) <==> Known(r, bodies, n, item)
  {
    var r1 := Handle(r, bodies[0], false).value;
    HandledTables(r, bodies[0], "");
    if j :| 0 <= j < n && Concerns(r.instance, item, bodies[j]) {
      assert j > 0 ==> bodies[1..][j - 1] == bodies[j];
    }
    if j :| 0 <= j < n - 1 && Concerns(r.instance, item, bodies[1..][j]) {
      assert bodies[j + 1] == bodies[1..][j];
    }
  }

  /** Of the messages bringing an activity row that is not there, the first one dealt with decides it:
      on its item if that was known by then, else on none. */
  lemma {:induction false} FirstActivityIsFiled(r: Replica, bodies: seq<Sealed>, i: nat, id: string)
    requires ApplyAll(r, bodies).Some? && i < |bodies| && id !in r.activity
    requires BringsActivity(r.instance, id, bodies[i])
    requires forall j :: 0 <= j < i ==> !BringsActivity(r.instance, id, bodies[j])
    ensures var r' := ApplyAll(r, bodies).value;
            var act := bodies[i].payload.act;
            && id in r'.activity
            && FiledAs(r'.activity[id], act, r.projectId, act.itemId.Some? && Known(r, bodies, i, act.itemId.value))
    decreases |bodies|
  {
    var r1 := Handle(r, bodies[0], false).value;
    HandledTables(r, bodies[0], id);
    if i == 0 {
      StoredActivityStays(r1, bodies[1..], id);
    } else {
      assert forall j :: 0 <= j < i - 1 ==> bodies[1..][j] == bodies[j + 1];
      FirstActivityIsFiled(r1, bodies[1..], i - 1, id);
      var act := bodies[i].payload.act;
      if act.itemId.Some? { KnownTail(r, bodies, i, act.itemId.value); }
    }
  }

  lemma {:induction false} NoOtherActivity(r: Replica, bodies: seq<Sealed>, id: string)
    requires ApplyAll(r, bodies).Some? && id !in r.activity
    requires forall j :: 0 <= j < |bodies| ==> !BringsActivity(r.instance, id, bodies[j])
    ensures id !in ApplyAll(r, bodies).value.activity
    decreases |bodies|
  {
    if bodies != [] {
      HandledTables(r, bodies[0], id);
      NoOtherActivity(Handle(r, bodies[0], false).value, bodies[1..], id);
    }
  }

  // ---- the project ----

  /** The fields of the project are these, and its own next pass has nothing to send for it. */
  predicate Shows(r: Replica, proj: ProjectPayload) {
    && r.project.name == proj.name && r.project.summary == proj.summary && r.project.instructions == proj.instructions
    && !ProjectDue(r)
  }

  lemma HandledProject(r: Replica, body: Sealed)
    requires Handle(r, body, false).Some?
    ensures var r' := Handle(r, body, false).value;
            && r'.instance == r.instance && r'.projectId == r.projectId
            && (BringsProject(r.instance, body) ==> Shows(r', body.payload.proj))
            && (!BringsProject(r.instance, body) ==> r'.project == r.project && (ProjectDue(r') <==> ProjectDue(r)))
  {
  }

  lemma {:induction false} ProjectStays(r: Replica, bodies: seq<Sealed>)
    requires ApplyAll(r, bodies).Some?
    requires forall j :: 0 <= j < |bodies| ==> !BringsProject(r.instance, bodies[j])
    ensures var r' := ApplyAll(r, bodies).value; r'.project == r.project && (ProjectDue(r') <==> ProjectDue(r))
    decreases |bodies|
  {
    if bodies != [] {
      HandledProject(r, bodies[0]);
      ProjectStays(Handle(r, bodies[0], false).value, bodies[1..]);
    }
  }

  lemma {:induction false} LastProjectShows(r: Replica, bodies: seq<Sealed>, i: nat)
    requires ApplyAll(r, bodies).Some? && i < |bodies| && BringsProject(r.instance, bodies[i])
    requires forall j :: i < j < |bodies| ==> !BringsProject(r.instance, bodies[j])
    ensures Shows(ApplyAll(r, bodies).value, bodies[i].payload.proj)
    decreases |bodies|
  {
    HandledProject(r, bodies[0]);
    var r1, rest := Handle(r, bodies[0], false).value, bodies[1..];
    if i == 0 { ProjectStays(r1, rest); } else { LastProjectShows(r1, rest, i - 1); }
  }

  // ---- every run of the courier ----

  /** Every activity message dealt with, acked ones included, is in the receiver's table, as the first
      message dealt with about that row has it; rows that were there are as they were; and no other
      row is there. */
  lemma ActivityInEveryRun(start: Replica, events: seq<Event>, id: string)
    ensures var w := Run(Start(start), events);
            && InRange(w.accepted, w.handled)
            && (id in start.activity ==> id in w.receiver.activity && w.receiver.activity[id] == start.activity[id])
            && (id !in start.activity ==>
                  (id in w.receiver.activity <==>
                   exists i :: 0 <= i < |w.handled| && BringsActivity(start.instance, id, w.accepted[w.handled[i] - 1])))
            && (forall no :: no in w.acked && 1 <= no <= |w.accepted| && BringsActivity(start.instance, id, w.accepted[no - 1]) ==>
                  id in w.receiver.activity)
  {
    StartIsQueueing(start);
    SoundRun(Start(start), events, start);
    var w := Run(Start(start), events);
    var bodies := Replay(w.accepted, w.handled);
    if id in start.activity {
      StoredActivityStays(start, bodies, id);
    } else if forall i :: 0 <= i < |w.handled| ==> !BringsActivity(start.instance, id, w.accepted[w.handled[i] - 1]) {
      NoOtherActivity(start, bodies, id);
    } else {
      var i :| 0 <= i < |w.handled| && BringsActivity(start.instance, id, w.accepted[w.handled[i] - 1]);
      var first := FirstBringing(start.instance, id, bodies, i);
      FirstActivityIsFiled(start, bodies, first, id);
    }
    forall no | no in w.acked && 1 <= no <= |w.accepted| && BringsActivity(start.instance, id, w.accepted[no - 1])
      ensures id in w.receiver.activity
    {
      assert no in w.handled;
      var i :| 0 <= i < |w.handled| && w.handled[i] == no;
    }
  }

  lemma {:induction false} FirstBringing(instance: string, id: string, bodies: seq<Sealed>, i: nat) returns (first: nat)
    requires i < |bodies| && BringsActivity(instance, id, bodies[i])
    ensures first < |bodies| && BringsActivity(instance, id, bodies[first])
    ensures forall j :: 0 <= j < first ==> !BringsActivity(instance, id, bodies[j])
    decreases i
  {
    first := i;
    if j :| 0 <= j < i && BringsActivity(instance, id, bodies[j]) {
      first := FirstBringing(instance, id, bodies, j);
    }
  }

  /** The row itself: content, project and item, by the first message about it in the ledger. */
  lemma ActivityRowInEveryRun(start: Replica, events: seq<Event>, id: string, i: nat)
    requires id !in start.activity
    requires var w := Run(Start(start), events);
             && InRange(w.accepted, w.handled) && i < |w.handled|
             && BringsActivity(start.instance, id, w.accepted[w.handled[i] - 1])
             && forall j :: 0 <= j < i ==> !BringsActivity(start.instance, id, w.accepted[w.handled[j] - 1])
    ensures var w := Run(Start(start), events);
            var act := w.accepted[w.handled[i] - 1].payload.act;
            && id in w.receiver.activity
            && FiledAs(w.receiver.activity[id], act, start.projectId,
                       act.itemId.Some? && Known(start, Replay(w.accepted, w.handled), i, act.itemId.value))
  {
    StartIsQueueing(start);
    SoundRun(Start(start), events, start);
    var w := Run(Start(start), events);
    FirstActivityIsFiled(start, Replay(w.accepted, w.handled), i, id);
  }

  /** The project is as the last message about it in the ledger has it, and is not sent back. */
  lemma ProjectInEveryRun(start: Replica, events: seq<Event>, i: nat)
    requires var w := Run(Start(start), events);
             && InRange(w.accepted, w.handled) && i < |w.handled|
             && BringsProject(start.instance, w.accepted[w.handled[i] - 1])
             && forall j :: i < j < |w.handled| ==> !BringsProject(start.instance, w.accepted[w.handled[j] - 1])
    ensures var w := Run(Start(start), events);
            Shows(w.receiver, w.accepted[w.handled[i] - 1].payload.proj)
  {
    StartIsQueueing(start);
    SoundRun(Start(start), events, start);
    var w := Run(Start(start), events);
    LastProjectShows(start, Replay(w.accepted, w.handled), i);
  }
}
