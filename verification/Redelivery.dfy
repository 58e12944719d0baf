/** What redelivered mail does to a row: the receiver ends on the last message it dealt with, which
    need not be the last one sent. */
module Redelivery {
  import opened Prelude
  import opened SyncProtocol
  import opened ItemMerge
  import opened ShareState
  import opened Convergence
  import opened Replicas
  import opened Mailbox
  import opened Threads
  import opened Courier
  import opened Wedge

  // ---- one row under a stream of deliveries ----

  /** The creation time a row keeps once it exists. */
  function Birth(c: Cell, first: ItemPayload): int {
    if c.row.Some? then c.row.value.createdAt else first.createdAt
  }

  predicate Fitting(c: Cell, ds: seq<Delivery>, id: string) {
    && (c.row.Some? ==> c.row.value.id == id)
    && forall i :: 0 <= i < |ds| ==> Complete(ds[i].remote) && ds[i].remote.id == id
  }

  lemma AppliedRow(c: Cell, d: Delivery, id: string)
    requires Fitting(c, [d], id)
    ensures var c' := Apply(c, d);
            && c'.row.Some? && c'.row.value.id == id && c'.row.value.createdAt == Birth(c, d.remote) && !Dirty(c')
            && (!Dirty(c) ==> ContentOf(c') == d.remote.(createdAt := Birth(c, d.remote)) && !Unsent(c'))
  {
    assert [d][0] == d;
    if Dirty(c) { MergedApply(c, d); } else { VerbatimApply(c, d); }
    if c.row.Some? && !Dirty(c) { VerbatimStored(c, d); }
  }

  /** A single delivery that meets an edit is merged. */
  predicate MeetsEdit(c: Cell, ds: seq<Delivery>) { Dirty(c) && |ds| == 1 }

  /** Where deliveries leave a row that is not edited meanwhile. */
  function Outcome(c: Cell, ds: seq<Delivery>): ItemPayload
    requires ds != []
  {
    var last := ds[|ds| - 1];
    if MeetsEdit(c, ds) then Merged(last.me, last.origin, ContentOf(c), last.remote)
    else last.remote.(createdAt := Birth(c, ds[0].remote))
  }

  /** It ends as the last delivery, whatever came before and however often, unless there was only one
      and it met an edit. */
  lemma {:induction false} LastDeliveryStays(c: Cell, ds: seq<Delivery>, id: string)
    requires Fitting(c, ds, id) && ds != []
    ensures var c' := ApplyEach(c, ds);
            && c'.row.Some? && !Dirty(c') && (!MeetsEdit(c, ds) ==> !Unsent(c'))
            && ContentOf(c') == Outcome(c, ds)
    decreases |ds|
  {
    assert [ds[0]][0] == ds[0];
    AppliedRow(c, ds[0], id);
    if |ds| == 1 {
      assert ds[1..] == [];
      if Dirty(c) { MergedApply(c, ds[0]); }
    } else {
      LastDeliveryStays(Apply(c, ds[0]), ds[1..], id);
    }
  }

  // ---- one row behind the courier ----

  predicate Wellformed(accepted: seq<Sealed>, instance: string, id: string) {
    forall i :: 0 <= i < |accepted| && Concerns(instance, id, accepted[i]) ==> Complete(accepted[i].payload.item)
  }

  /** The i-th ledger entry is the last one about the item. */
  predicate LastAbout(w: World, instance: string, id: string, i: nat) {
    && i < |w.handled| && InRange(w.accepted, w.handled)
    && Concerns(instance, id, w.accepted[w.handled[i] - 1])
    && forall j :: i < j < |w.handled| ==> !Concerns(instance, id, w.accepted[w.handled[j] - 1])
  }

  /** Message number no is the newest one about the item. */
  predicate NewestAbout(w: World, instance: string, id: string, no: int) {
    && 1 <= no <= |w.accepted| && Concerns(instance, id, w.accepted[no - 1])
    && forall j :: no <= j < |w.accepted| ==> !Concerns(instance, id, w.accepted[j])
  }

  lemma {:induction false} AboutNone(instance: string, project: string, id: string, bodies: seq<Sealed>)
    requires forall i :: 0 <= i < |bodies| ==> !Concerns(instance, id, bodies[i])
    ensures About(instance, project, id, bodies) == []
    decreases |bodies|
  {
    if bodies != [] { AboutNone(instance, project, id, bodies[1..]); }
  }

  lemma {:induction false} AboutEnds(instance: string, project: string, id: string, bodies: seq<Sealed>, i: nat)
    requires i < |bodies| && Concerns(instance, id, bodies[i])
    requires forall j :: i < j < |bodies| ==> !Concerns(instance, id, bodies[j])
    ensures var ds := About(instance, project, id, bodies);
            ds != [] && ds[|ds| - 1] == Delivery(instance, bodies[i].origin, project, bodies[i].payload.item)
    decreases |bodies|
  {
    if i == 0 {
      AboutNone(instance, project, id, bodies[1..]);
    } else {
      AboutEnds(instance, project, id, bodies[1..], i - 1);
    }
  }

  lemma {:induction false} AboutFits(instance: string, project: string, id: string, bodies: seq<Sealed>)
    requires Wellformed(bodies, instance, id)
    ensures forall i :: 0 <= i < |About(instance, project, id, bodies)| ==>
              var p := About(instance, project, id, bodies)[i].remote; Complete(p) && p.id == id
    decreases |bodies|
  {
    if bodies != [] {
      assert Wellformed(bodies[1..], instance, id);
      AboutFits(instance, project, id, bodies[1..]);
    }
  }

  /** The deliveries about an item that the receiver dealt with, in the order it did. */
  function Dealt(start: Replica, w: World, id: string): seq<Delivery>
    requires InRange(w.accepted, w.handled)
  {
    About(start.instance, start.projectId, id, Replay(w.accepted, w.handled))
  }

  /** In every run of the courier, however interrupted: a receiver that does not edit the item ends
      with the last message about it in its ledger, clean and with nothing to send. (An edit it had
      made before is merged with the first message, and overwritten by the next.) */
  lemma RowIsLastInLedger(start: Replica, events: seq<Event>, id: string, i: nat)
    requires var w := Run(Start(start), events);
             LastAbout(w, start.instance, id, i) && Wellformed(w.accepted, start.instance, id)
    requires ItemCell(start, id).row.Some? ==> ItemCell(start, id).row.value.id == id
    ensures var w := Run(Start(start), events);
            var c, ds := ItemCell(w.receiver, id), Dealt(start, w, id);
            && ds != [] && ds[|ds| - 1].remote == w.accepted[w.handled[i] - 1].payload.item
            && c.row.Some? && !Dirty(c) && (!MeetsEdit(ItemCell(start, id), ds) ==> !Unsent(c))
            && ContentOf(c) == Outcome(ItemCell(start, id), ds)
  {
    StartIsQueueing(start);
    SoundRun(Start(start), events, start);
    LedgerEnds(start, Run(Start(start), events), id, i);
    ItemFollowsItsMail(start, Replay(Run(Start(start), events).accepted, Run(Start(start), events).handled), id);
    LastDeliveryStays(ItemCell(start, id), Dealt(start, Run(Start(start), events), id), id);
  }

  lemma LedgerEnds(start: Replica, w: World, id: string, i: nat)
    requires LastAbout(w, start.instance, id, i) && Wellformed(w.accepted, start.instance, id)
    requires ItemCell(start, id).row.Some? ==> ItemCell(start, id).row.value.id == id
    ensures var ds := Dealt(start, w, id);
            && ds != [] && ds[|ds| - 1].remote == w.accepted[w.handled[i] - 1].payload.item
            && Fitting(ItemCell(start, id), ds, id)
  {
    var bodies := Replay(w.accepted, w.handled);
    AboutEnds(start.instance, start.projectId, id, bodies, i);
    assert Wellformed(bodies, start.instance, id);
    AboutFits(start.instance, start.projectId, id, bodies);
  }

  predicate SameBesidesBirth(p: ItemPayload, q: ItemPayload) { p == q.(createdAt := p.createdAt) }

  /** The newest accepted version survives at the receiver exactly when the last one it dealt with
      says the same. Redelivery is harmless in the runs where that holds, and only there. */
  lemma NewestSurvivesIff(start: Replica, events: seq<Event>, id: string, i: nat, no: int)
    requires var w := Run(Start(start), events);
             LastAbout(w, start.instance, id, i) && NewestAbout(w, start.instance, id, no)
             && Wellformed(w.accepted, start.instance, id)
             && !MeetsEdit(ItemCell(start, id), Dealt(start, w, id))
    requires ItemCell(start, id).row.Some? ==> ItemCell(start, id).row.value.id == id
    ensures var w := Run(Start(start), events);
            var c := ItemCell(w.receiver, id);
            && c.row.Some?
            && (SameBesidesBirth(ContentOf(c), w.accepted[no - 1].payload.item)
                <==> SameBesidesBirth(w.accepted[w.handled[i] - 1].payload.item, w.accepted[no - 1].payload.item))
  {
    RowIsLastInLedger(start, events, id, i);
  }

  /** Without interruption it always does: once everything is dealt with, the last one about the item
      is the newest. */
  lemma UninterruptedKeepsNewest(start: Replica, events: seq<Event>, id: string, i: nat)
    requires forall e :: e in events ==> Smooth(start.instance, e)
    requires var w := Run(Start(start), events);
             LastAbout(w, start.instance, id, i) && |w.handled| == |w.accepted|
    ensures NewestAbout(Run(Start(start), events), start.instance, id, Run(Start(start), events).handled[i])
  {
    StartIsQueueing(start);
    SmoothRunIsQueue(Start(start), start, events);
    var w := Run(Start(start), events);
    assert w.handled[i] == i + 1;
    forall j | i + 1 <= j < |w.accepted| ensures !Concerns(start.instance, id, w.accepted[j]) {
      assert w.handled[j] == j + 1;
    }
  }

  // ---- one lost ack ----

  /** Two versions sent, the ack of the first lost, then two pulls: one within its lease and one after. */
  function LostAck(x: Sealed, y: Sealed, t: int, within: int, after: int): seq<Event> {
    [Event.Send(t, x), Event.Pull(t, {}, None, false), Event.Send(t, y),
     Event.Pull(within, {}, None, true), Event.Pull(after, {}, None, true)]
  }

  lemma RunFive(w: World, a: Event, b: Event, c: Event, d: Event, e: Event)
    ensures Run(w, [a, b, c, d, e]) == Next(Next(Next(Next(Next(w, a), b), c), d), e)
  {
    RunFrom(w, a, [b, c, d, e]);
    var w1 := Next(w, a);
    RunFrom(w1, b, [c, d, e]);
    RunFrom(Next(w1, b), c, [d, e]);
    RunFrom(Next(Next(w1, b), c), d, [e]);
    RunFrom(Next(Next(Next(w1, b), c), d), e, []);
    assert [a] + [b, c, d, e] == [a, b, c, d, e] && [b] + [c, d, e] == [b, c, d, e];
    assert [c] + [d, e] == [c, d, e] && [d] + [e] == [d, e] && [e] + [] == [e];
  }

  lemma RunFrom(w: World, e: Event, rest: seq<Event>)
    ensures Run(w, [e] + rest) == Run(Next(w, e), rest)
  {
    assert ([e] + rest)[1..] == rest;
  }

  lemma LeaseOne(leases: map<int, int>, m: Message<Sealed>, now: int)
    ensures Lease(leases, [m], now) == leases[m.no := now + LEASE_TTL] && Nos([m]) == {m.no}
  {
    assert [m][1..] == [] && [m] + [] == [m];
    NosCons(m, []);
  }

  lemma BatchOfOne(r: Replica, m: Message<Sealed>)
    requires !Poison(r.instance, m.body)
    ensures var p := PullBatch(r, Mails([m]), {});
            && p.finished && p.done == [m.no] && p.replica.instance == r.instance
            && ApplyAll(r, [m.body]) == Some(p.replica)
  {
    BatchUpToPoison(r, [m]);
    assert UpToPoison(r.instance, [m]) == 1;
    assert [m][..1] == [m] && Bodies([m]) == [m.body] && Numbers(Mails([m])) == [m.no];
  }

  /** A pull that hands out just this message, which is not poison. */
  lemma PullJust(w: World, e: Event, m: Message<Sealed>)
    requires w.box.Some? && e.Pull? && e.faults == {} && e.diesAfter.None?
    requires OutOf(w, e) == [m] && !Poison(w.receiver.instance, m.body)
    ensures var b := w.box.value;
            var r := ApplyAll(w.receiver, [m.body]);
            var held := b.leases[m.no := e.now + LEASE_TTL];
            && r.Some? && r.value.instance == w.receiver.instance
            && Next(w, e) == World(
                 Some(if e.ackArrives then Box(b.nextSeq, Without(b.msgs, {m.no}), held - {m.no}) else b.(leases := held)),
                 r.value, w.accepted, w.handled + [m.no], if e.ackArrives then w.acked + {m.no} else w.acked)
  {
    BatchOfOne(w.receiver, m);
    LeaseOne(w.box.value.leases, m, e.now);
    assert Elements([m.no]) == {m.no};
  }

  lemma HandOutPair(m1: Message<Sealed>, m2: Message<Sealed>, leases: map<int, int>, now: int)
    requires Leased(leases, m1.no, now) && !Leased(leases, m2.no, now) && m1.no != m2.no
    ensures HandOut([m1, m2], leases, BATCH, now) == [m2] && Without([m1, m2], {m2.no}) == [m1]
  {
    assert [m1, m2][1..] == [m2];
    HandOutSingle(m2, leases, now);
  }

  lemma HandOutSingle(m: Message<Sealed>, leases: map<int, int>, now: int)
    requires !Leased(leases, m.no, now)
    ensures HandOut([m], leases, BATCH, now) == [m] && Without([m], {m.no}) == []
  {
    assert [m][1..] == [];
  }

  /** Sent, applied, and its ack lost: dealt with, but still on file. */
  lemma AckLost(start: Replica, x: Sealed, t: int)
    requires !Poison(start.instance, x)
    ensures var w := Next(Next(Start(start), Event.Send(t, x)), Event.Pull(t, {}, None, false));
            && w.receiver.instance == start.instance
            && w == World(Some(Box(2, [Message(1, t, x)], map[1 := t + LEASE_TTL])), w.receiver, [x], [1], {})
  {
    var w := Next(Start(start), Event.Send(t, x));
    assert [] + [Message(1, t, x)] == [Message(1, t, x)] && [] + [x] == [x];
    assert w == World(Some(Box(2, [Message(1, t, x)], map[])), start, [x], [], {});
    HandOutSingle(Message(1, t, x), map[], t);
    PullJust(w, Event.Pull(t, {}, None, false), Message(1, t, x));
  }

  /** A newer one passes it while its lease runs. */
  lemma NewerPasses(w: World, x: Sealed, y: Sealed, t: int, within: int)
    requires w == World(Some(Box(2, [Message(1, t, x)], map[1 := t + LEASE_TTL])), w.receiver, [x], [1], {})
    requires !Poison(w.receiver.instance, y) && t <= within < t + LEASE_TTL
    ensures var w' := Next(Next(w, Event.Send(t, y)), Event.Pull(within, {}, None, true));
            && w'.receiver.instance == w.receiver.instance
            && w' == World(Some(Box(3, [Message(1, t, x)], map[1 := t + LEASE_TTL])), w'.receiver, [x, y], [1, 2], {2})
  {
    var m1, m2, held := Message(1, t, x), Message(2, t, y), map[1 := t + LEASE_TTL];
    var w1 := Next(w, Event.Send(t, y));
    assert [m1] + [m2] == [m1, m2] && [x] + [y] == [x, y];
    assert w1 == World(Some(Box(3, [m1, m2], held)), w.receiver, [x, y], [1], {});
    HandOutPair(m1, m2, held, within);
    PullJust(w1, Event.Pull(within, {}, None, true), m2);
    assert held[2 := within + LEASE_TTL] - {2} == held;
  }

  /** And then it comes again. */
  lemma OlderReturns(w: World, x: Sealed, y: Sealed, t: int, after: int)
    requires w == World(Some(Box(3, [Message(1, t, x)], map[1 := t + LEASE_TTL])), w.receiver, [x, y], [1, 2], {2})
    requires !Poison(w.receiver.instance, x) && t + LEASE_TTL <= after
    ensures var w' := Next(w, Event.Pull(after, {}, None, true));
            w' == World(Some(Box(3, [], map[])), w'.receiver, [x, y], [1, 2, 1], {1, 2})
  {
    var m1, held := Message(1, t, x), map[1 := t + LEASE_TTL];
    HandOutSingle(m1, held, after);
    PullJust(w, Event.Pull(after, {}, None, true), m1);
    assert held[1 := after + LEASE_TTL] - {1} == map[];
  }

  /** The older version is dealt with last: the ledger reads 1, 2, 1, everything is acked, and the
      mailbox is empty. */
  lemma LostAckLedger(start: Replica, x: Sealed, y: Sealed, t: int, within: int, after: int)
    requires !Poison(start.instance, x) && !Poison(start.instance, y)
    requires t <= within < t + LEASE_TTL <= after
    ensures var w := Run(Start(start), LostAck(x, y, t, within, after));
            w == World(Some(Box(3, [], map[])), w.receiver, [x, y], [1, 2, 1], {1, 2})
  {
    var lost, e3, e4 := Event.Pull(t, {}, None, false), Event.Pull(within, {}, None, true), Event.Pull(after, {}, None, true);
    RunFive(Start(start), Event.Send(t, x), lost, Event.Send(t, y), e3, e4);
    AckLost(start, x, t);
    var w1 := Next(Next(Start(start), Event.Send(t, x)), lost);
    NewerPasses(w1, x, y, t, within);
    OlderReturns(Next(Next(w1, Event.Send(t, y)), e3), x, y, t, after);
  }

  lemma AboutThree(instance: string, project: string, id: string, x: Sealed, y: Sealed, z: Sealed)
    requires Concerns(instance, id, x) && Concerns(instance, id, y) && Concerns(instance, id, z)
    ensures |About(instance, project, id, [x, y, z])| == 3
  {
    assert [x, y, z][1..] == [y, z] && [y, z][1..] == [z] && [z][1..] == [];
    assert About(instance, project, id, []) == [];
    assert |About(instance, project, id, [z])| == 1;
  }

  /** One lost ack drops the newer version for good: the receiver ends on the older one, clean and
      with nothing to send, while nothing is left in the mailbox. */
  lemma LostAckDropsNewest(start: Replica, x: Sealed, y: Sealed, id: string, t: int, within: int, after: int)
    requires Concerns(start.instance, id, x) && Concerns(start.instance, id, y)
    requires Complete(x.payload.item) && Complete(y.payload.item)
    requires ItemCell(start, id).row.Some? ==> ItemCell(start, id).row.value.id == id
    requires t <= within < t + LEASE_TTL <= after
    ensures var w := Run(Start(start), LostAck(x, y, t, within, after));
            var c := ItemCell(w.receiver, id);
            && w.box == Some(Box(3, [], map[])) && w.acked == {1, 2} && NewestAbout(w, start.instance, id, 2)
            && c.row.Some? && !Dirty(c) && !Unsent(c) && SameBesidesBirth(ContentOf(c), x.payload.item)
  {
    LostAckLedger(start, x, y, t, within, after);
    var w := Run(Start(start), LostAck(x, y, t, within, after));
    assert Replay(w.accepted, w.handled) == [x, y, x];
    AboutThree(start.instance, start.projectId, id, x, y, x);
    RowIsLastInLedger(start, LostAck(x, y, t, within, after), id, 2);
  }
}
